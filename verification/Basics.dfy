/** What every part of the model shares. */
module Basics {

  datatype Option<T> = None | Some(value: T)

  /** What the network makes of one command: it is answered, it is applied and its answer lost, or it never arrives. */
  datatype Trip = Answered | AnswerLost | Unsent {
    predicate Applied() {
      !Unsent?
    }
  }

  lemma {:induction false} LengthBound(used: set<string>) returns (n: nat)
    ensures forall s :: s in used ==> |s| <= n
    decreases |used|
  {
    n := 0;
    if t :| t in used {
      n := LengthBound(used - {t});
      n := if |t| > n then |t| else n;
    }
  }

  /** Strings never run out. */
  lemma FreshString(used: set<string>) returns (s: string)
    ensures s !in used
  {
    var n := LengthBound(used);
    s := seq(n + 1, _ => 'x');
  }
}
