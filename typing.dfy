/** The typed headline of the hero section: `digitar` appends one character
    per timer tick until the text is exhausted, then hides the caret after a
    further delay. Timer delays are not modelled, only the order of ticks. */
module TypedText {

  /** The text `inicializarEfeitoDigitacao` types. Every character is in the
      Basic Multilingual Plane, so `texto.length` and `charAt` agree with
      Dafny's `|texto|` and `texto[i]`. */
  const Headline: string := "Estudante de Análise e Desenvolvimento de SISTEMAS & Cibersegurança"

  /** The typing element and the closure state of `digitar`. */
  class Typewriter {
    const texto: string
    var i: nat
    var shown: string       // the element's text
    var caret: bool         // the 2px right border is drawn
    var stepPending: bool   // a `setTimeout(digitar, …)` is waiting
    var caretTimer: bool    // the 500 ms timer that hides the caret is waiting

    /** What every tick keeps: the element shows exactly the first `i`
        characters of the text. */
    predicate Valid()
      reads this
    {
      i <= |texto| && shown == texto[..i]
    }

    /** The element is emptied, the caret drawn, and the first tick set. */
    constructor (texto: string)
      ensures this.texto == texto && i == 0 && shown == [] && caret
      ensures stepPending && !caretTimer && Valid()
    {
      this.texto := texto;
      i, shown := 0, [];
      caret, stepPending, caretTimer := true, true, false;
    }

    /** One tick of `digitar`: append the next character and set the next
        tick, or, once the text is exhausted, set the caret timer instead. */
    method Digitar()
      requires Valid() && stepPending
      modifies this
      ensures Valid() && caret == old(caret)
      ensures old(i) < |texto| ==>
        i == old(i) + 1 && shown == old(shown) + [texto[old(i)]] && stepPending
        && caretTimer == old(caretTimer)
      ensures old(i) == |texto| ==> i == old(i) && shown == old(shown) && !stepPending && caretTimer
    {
      if i < |texto| {
        shown := shown + [texto[i]];
        i := i + 1;
      } else {
        stepPending := false;
        caretTimer := true;
      }
    }

    /** The caret timer fires: the border is removed. */
    method HideCaret()
      requires caretTimer
      modifies this
      ensures !caret && !caretTimer
      ensures i == old(i) && shown == old(shown) && stepPending == old(stepPending)
    {
      caret, caretTimer := false, false;
    }

    /** Every tick of the chain, in order, and then the caret timer:
        `|texto| + 1` ticks in all, after which the whole text is shown. */
    method Run() returns (ticks: nat)
      requires Valid() && i == 0 && stepPending
      modifies this
      ensures shown == texto && i == |texto| && !stepPending && !caret && !caretTimer
      ensures ticks == |texto| + 1
    {
      ticks := 0;
      while stepPending
        invariant Valid() && ticks == i + (if stepPending then 0 else 1)
        invariant !stepPending ==> i == |texto| && caretTimer
        decreases |texto| - i, stepPending
      {
        Digitar();
        ticks := ticks + 1;
      }
      HideCaret();
    }
  }

  /** `inicializarEfeitoDigitacao` run to the end: without the element nothing
      happens; with it, the element ends up showing `texto`, after
      `|texto| + 1` ticks. */
  method Digitacao(texto: string, hasElement: bool) returns (shown: string, ticks: nat)
    ensures hasElement ==> shown == texto && ticks == |texto| + 1
    ensures !hasElement ==> shown == [] && ticks == 0
  {
    if !hasElement {
      return [], 0;
    }
    var t := new Typewriter(texto);
    ticks := t.Run();
    shown := t.shown;
  }

  /** The page's headline: 67 characters, so 68 ticks. */
  method TypeHeadline() returns (shown: string, ticks: nat)
    ensures shown == Headline && ticks == 68
  {
    shown, ticks := Digitacao(Headline, true);
  }
}
