/** The contact-form check of the portfolio page: four fields are trimmed,
    none may be empty, and the e-mail must match `^[^\s@]+@[^\s@]+\.[^\s@]+$`. */
module FormValidation {

  /** The characters JavaScript treats as white space, both in `\s` and in
      `String.prototype.trim`: WhiteSpace and LineTerminator of ECMA-262. */
  predicate IsSpace(c: char) {
    c == '\t' || c == '\n' || c == '\U{000B}' || c == '\U{000C}' || c == '\r' || c == ' '
    || c == '\U{00A0}' || c == '\U{1680}' || ('\U{2000}' <= c <= '\U{200A}')
    || c == '\U{2028}' || c == '\U{2029}' || c == '\U{202F}' || c == '\U{205F}'
    || c == '\U{3000}' || c == '\U{FEFF}'
  }

  predicate AllSpace(s: string) {
    forall k :: 0 <= k < |s| ==> IsSpace(s[k])
  }

  predicate NoSpace(s: string) {
    forall k :: 0 <= k < |s| ==> !IsSpace(s[k])
  }

  /** Drops the leading white space: the result is the suffix of `s` that
      starts at its first non-space character. */
  function TrimStart(s: string): (r: string)
    ensures |r| <= |s| && r == s[|s| - |r|..]
    ensures AllSpace(s[..|s| - |r|])
    ensures r == [] || !IsSpace(r[0])
  {
    if s == [] || !IsSpace(s[0]) then s
    else
      var r := TrimStart(s[1..]);
      assert s[..|s| - |r|] == [s[0]] + s[1..][..|s[1..]| - |r|];
      r
  }

  /** Drops the trailing white space: the result is the prefix of `s` that
      ends at its last non-space character. */
  function TrimEnd(s: string): (r: string)
    ensures |r| <= |s| && r == s[..|r|]
    ensures AllSpace(s[|r|..])
    ensures r == [] || !IsSpace(r[|r| - 1])
  {
    if s == [] || !IsSpace(s[|s| - 1]) then s
    else
      var r := TrimEnd(s[..|s| - 1]);
      assert s[|r|..] == s[..|s| - 1][|r|..] + [s[|s| - 1]];
      r
  }

  /** `String.prototype.trim`. */
  function Trim(s: string): string {
    TrimEnd(TrimStart(s))
  }

  /** The trimmed string neither starts nor ends with white space. */
  lemma TrimShape(s: string)
    ensures Trim(s) == [] || (!IsSpace(Trim(s)[0]) && !IsSpace(Trim(s)[|Trim(s)| - 1]))
  {
    var t := TrimStart(s);
    var r := TrimEnd(t);
  }

  /** A field is rejected as empty exactly when it holds nothing but white space. */
  lemma TrimEmptyIff(s: string)
    ensures Trim(s) == [] <==> AllSpace(s)
  {
    var t := TrimStart(s);
    var r := TrimEnd(t);
    assert forall q :: 0 <= q < |s| - |t| ==> s[..|s| - |t|][q] == s[q];
    assert forall q :: |r| <= q < |t| ==> t[|r|..][q - |r|] == t[q];
  }

  /** Trimming twice is trimming once. */
  lemma TrimIdempotent(s: string)
    ensures Trim(Trim(s)) == Trim(s)
  {
    var r := Trim(s);
    TrimShape(s);
    if r != [] {
      assert TrimStart(r) == r;
      assert TrimEnd(r) == r;
    }
  }

  /** One of the three character runs `[^\s@]+` of the pattern. */
  predicate Run(t: string) {
    |t| > 0 && forall k :: 0 <= k < |t| ==> !IsSpace(t[k]) && t[k] != '@'
  }

  /** The language of `^[^\s@]+@[^\s@]+\.[^\s@]+$`: a run, an `@`, a run, a
      literal `.`, and a run, with nothing before or after. */
  predicate EmailPattern(s: string) {
    exists i, j | 0 <= i < j < |s| ::
      Run(s[..i]) && s[i] == '@' && Run(s[i + 1..j]) && s[j] == '.' && Run(s[j + 1..])
  }

  /** The same set of strings, said plainly: no white space anywhere, exactly
      one `@` and it is not the first character, and some `.` after it has at
      least one character between it and the `@` and at least one after it. */
  predicate PlainEmail(s: string) {
    NoSpace(s)
    && exists k, j | 0 < k < j < |s| ::
         s[k] == '@' && (forall m :: 0 <= m < |s| && s[m] == '@' ==> m == k)
         && k + 1 < j < |s| - 1 && s[j] == '.'
  }

  lemma EmailPatternIsPlain(s: string)
    ensures EmailPattern(s) <==> PlainEmail(s)
  {
    if EmailPattern(s) {
      var i, j :| 0 <= i < j < |s| && Run(s[..i]) && s[i] == '@' && Run(s[i + 1..j])
                  && s[j] == '.' && Run(s[j + 1..]);
      forall m | 0 <= m < |s|
        ensures !IsSpace(s[m]) && (s[m] == '@' ==> m == i)
      {
        if m < i { assert s[..i][m] == s[m]; }
        else if i < m < j { assert s[i + 1..j][m - i - 1] == s[m]; }
        else if j < m { assert s[j + 1..][m - j - 1] == s[m]; }
      }
      assert 0 < i < j < |s| && s[i] == '@' && (forall m :: 0 <= m < |s| && s[m] == '@' ==> m == i)
             && i + 1 < j < |s| - 1 && s[j] == '.';
    }
    if PlainEmail(s) {
      var k, j :| 0 < k < j < |s| && s[k] == '@'
                  && (forall m :: 0 <= m < |s| && s[m] == '@' ==> m == k)
                  && k + 1 < j < |s| - 1 && s[j] == '.';
      assert Run(s[..k]) by {
        forall m | 0 <= m < k ensures !IsSpace(s[..k][m]) && s[..k][m] != '@' {
          assert s[..k][m] == s[m];
        }
      }
    }
  }

  /** The four fields of the contact form, as typed. */
  datatype ContactForm = ContactForm(nome: string, email: string, assunto: string, mensagem: string)

  /** `validarFormulario`: every trimmed field is non-empty and the trimmed
      e-mail matches the pattern. */
  predicate ValidarFormulario(f: ContactForm) {
    var nome := Trim(f.nome);
    var email := Trim(f.email);
    var assunto := Trim(f.assunto);
    var mensagem := Trim(f.mensagem);
    if nome == [] || email == [] || assunto == [] || mensagem == [] then false
    else EmailPattern(email)
  }

  /** A form passes exactly when no field is blank (empty or only white space)
      and the trimmed e-mail is a plain address in the sense of PlainEmail. */
  lemma ValidarFormularioIff(f: ContactForm)
    ensures ValidarFormulario(f) <==>
              !AllSpace(f.nome) && !AllSpace(f.email) && !AllSpace(f.assunto)
              && !AllSpace(f.mensagem) && PlainEmail(Trim(f.email))
  {
    TrimEmptyIff(f.nome);
    TrimEmptyIff(f.email);
    TrimEmptyIff(f.assunto);
    TrimEmptyIff(f.mensagem);
    EmailPatternIsPlain(Trim(f.email));
  }

  /** Any blank field makes the form invalid, whatever the other fields hold. */
  lemma BlankFieldRejected(f: ContactForm)
    requires AllSpace(f.nome) || AllSpace(f.email) || AllSpace(f.assunto) || AllSpace(f.mensagem)
    ensures !ValidarFormulario(f)
  {
    ValidarFormularioIff(f);
  }

  /** Leading white space is dropped whatever follows it. */
  lemma {:induction false} TrimStartSkipsSpace(p: string, x: string)
    requires AllSpace(p)
    ensures TrimStart(p + x) == TrimStart(x)
    decreases |p|
  {
    if p != [] {
      assert (p + x)[0] == p[0] && (p + x)[1..] == p[1..] + x;
      TrimStartSkipsSpace(p[1..], x);
    } else {
      assert p + x == x;
    }
  }

  /** Trailing white space is dropped whatever precedes it. */
  lemma {:induction false} TrimEndSkipsSpace(x: string, q: string)
    requires AllSpace(q)
    ensures TrimEnd(x + q) == TrimEnd(x)
    decreases |q|
  {
    if q != [] {
      assert (x + q)[|x + q| - 1] == q[|q| - 1] && (x + q)[..|x + q| - 1] == x + q[..|q| - 1];
      TrimEndSkipsSpace(x, q[..|q| - 1]);
    } else {
      assert x + q == x;
    }
  }

  /** Once a non-space character is reached, TrimStart keeps everything after. */
  lemma {:induction false} TrimStartAppend(x: string, q: string)
    requires !AllSpace(x)
    ensures TrimStart(x + q) == TrimStart(x) + q
    decreases |x|
  {
    if IsSpace(x[0]) {
      assert !AllSpace(x[1..]) by {
        var k :| 0 <= k < |x| && !IsSpace(x[k]);
        assert x[1..][k - 1] == x[k];
      }
      assert (x + q)[1..] == x[1..] + q;
      TrimStartAppend(x[1..], q);
    }
  }

  /** White space around a string does not change what `trim` returns. */
  lemma TrimIgnoresPadding(p: string, e: string, q: string)
    requires AllSpace(p) && AllSpace(q)
    ensures Trim(p + e + q) == Trim(e)
  {
    assert p + e + q == p + (e + q);
    TrimStartSkipsSpace(p, e + q);
    if AllSpace(e) {
      assert AllSpace(e + q) by {
        forall k | 0 <= k < |e + q| ensures IsSpace((e + q)[k]) {
          if k < |e| { assert (e + q)[k] == e[k]; } else { assert (e + q)[k] == q[k - |e|]; }
        }
      }
      TrimEmptyIff(e + q);
      TrimEmptyIff(e);
    } else {
      TrimStartAppend(e, q);
      TrimEndSkipsSpace(TrimStart(e), q);
    }
  }

  /** White space typed around the e-mail never changes the verdict. */
  lemma PaddedEmailForgiven(f: ContactForm, p: string, q: string)
    requires AllSpace(p) && AllSpace(q)
    ensures ValidarFormulario(f.(email := p + f.email + q)) == ValidarFormulario(f)
  {
    TrimIgnoresPadding(p, f.email, q);
  }

  lemma TrimsPadding()
    ensures Trim(" ana@site.com\n") == "ana@site.com"
  {
    var e := " ana@site.com\n";
    var t := "ana@site.com";
    assert e[1..] == t + "\n";
    assert TrimStart(e) == t + "\n" by { assert !IsSpace(e[1]); }
    assert (t + "\n")[..|t|] == t;
    assert TrimEnd(t + "\n") == t by { assert !IsSpace(t[|t| - 1]); }
  }

  lemma MatchesPlainAddress()
    ensures EmailPattern("ana@site.com")
  {
    var t := "ana@site.com";
    assert Run(t[..3]) && t[3] == '@' && Run(t[4..8]) && t[8] == '.' && Run(t[9..]);
  }

  /** White space inside the e-mail is not. */
  lemma RejectsInnerSpace()
    ensures !ValidarFormulario(ContactForm("Ana", "ana @site.com", "Oi", "Olá"))
  {
    var e := "ana @site.com";
    assert TrimStart(e) == e by { assert !IsSpace(e[0]); }
    assert TrimEnd(e) == e by { assert !IsSpace(e[|e| - 1]); }
    EmailPatternIsPlain(e);
    assert IsSpace(e[3]);
  }

  /** Nor is a second `@`. */
  lemma RejectsDoubleAt()
    ensures !ValidarFormulario(ContactForm("Ana", "ana@@site.com", "Oi", "Olá"))
  {
    var e := "ana@@site.com";
    assert TrimStart(e) == e by { assert !IsSpace(e[0]); }
    assert TrimEnd(e) == e by { assert !IsSpace(e[|e| - 1]); }
    EmailPatternIsPlain(e);
    assert e[3] == '@' && e[4] == '@';
  }
}
