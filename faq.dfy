/**
 * The FAQ accordion: every question button, its `aria-expanded` state and the
 * panel that follows it (when there is one), updated in place by a click.
 */
module Faq {

  /** The element after a question button: absent, or a panel with its `hidden` flag. */
  datatype Panel = NoPanel | Panel(hidden: bool)

  /** One question button: `expanded` is whether its aria-expanded reads "true". */
  datatype Question = Question(expanded: bool, panel: Panel)

  /** The panel of `q` is on screen. */
  predicate Visible(q: Question) {
    q.panel == Panel(false)
  }

  /** The "close all" step applied to one question. */
  function Collapsed(q: Question): (c: Question)
    ensures !c.expanded && !Visible(c)
    ensures c.panel.Panel? == q.panel.Panel?
  {
    Question(false, if q.panel.Panel? then Panel(true) else NoPanel)
  }

  /** Every button collapsed and every panel hidden. */
  predicate AllClosed(qs: seq<Question>) {
    forall i :: 0 <= i < |qs| ==> !qs[i].expanded && !Visible(qs[i])
  }

  /**
   * The accordion after a click on button `k`: close every question, then open
   * `k` when it was collapsed before the click and has a panel.
   */
  function AfterClick(qs: seq<Question>, k: nat): (r: seq<Question>)
    requires k < |qs|
    ensures |r| == |qs|
    ensures forall i :: 0 <= i < |r| ==> r[i].panel.Panel? == qs[i].panel.Panel?
    ensures forall i, j :: 0 <= i < j < |r| && Visible(r[i]) ==> !Visible(r[j])
    ensures forall i, j :: 0 <= i < j < |r| && r[i].expanded ==> !r[j].expanded
    ensures qs[k].expanded || qs[k].panel.NoPanel? ==> AllClosed(r)
    ensures !qs[k].expanded && qs[k].panel.Panel? ==>
      r[k].expanded && Visible(r[k]) &&
      forall i :: 0 <= i < |r| && i != k ==> !r[i].expanded && !Visible(r[i])
  {
    seq(|qs|, i requires 0 <= i < |qs| =>
      if i == k && !qs[k].expanded && qs[k].panel.Panel? then Question(true, Panel(false))
      else Collapsed(qs[i]))
  }

  /** A click that opens a collapsed question, then a second click on it, closes everything. */
  lemma ClickTwiceCloses(qs: seq<Question>, k: nat)
    requires k < |qs| && !qs[k].expanded && qs[k].panel.Panel?
    ensures AllClosed(AfterClick(AfterClick(qs, k), k))
  {
  }

  /** Opening `b` while `a` is open leaves exactly `b` open. */
  lemma OpenOtherSwitches(qs: seq<Question>, a: nat, b: nat)
    requires a < |qs| && b < |qs| && a != b
    requires qs[a].expanded && Visible(qs[a])
    requires !qs[b].expanded && qs[b].panel.Panel?
    ensures var r := AfterClick(qs, b);
      !r[a].expanded && !Visible(r[a]) && r[b].expanded && Visible(r[b])
  {
  }

  class Accordion {
    /** The question buttons in document order, with their panels. */
    const questions: array<Question>

    constructor (initial: seq<Question>)
      ensures questions[..] == initial && fresh(questions)
    {
      questions := new Question[|initial|](i requires 0 <= i < |initial| => initial[i]);
    }

    /** The click handler of button `k`. */
    method Click(k: nat)
      requires k < questions.Length
      modifies questions
      ensures questions[..] == AfterClick(old(questions[..]), k)
    {
      var expanded := questions[k].expanded;
      var hasPanel := questions[k].panel.Panel?;
      // Close all
      for i := 0 to questions.Length
        invariant forall j :: 0 <= j < i ==> questions[j] == Collapsed(old(questions[j]))
        invariant forall j :: i <= j < questions.Length ==> questions[j] == old(questions[j])
      {
        questions[i] := Collapsed(questions[i]);
      }
      // Open the selected one if it was closed
      if !expanded && hasPanel {
        questions[k] := Question(true, Panel(false));
      }
    }
  }
}
