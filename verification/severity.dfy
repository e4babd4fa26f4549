/**
 * The three values a document row's `Estado` column takes, and their order
 * OK < WARNING < ERROR.
 */
module Severity {

  datatype Status = Ok | Warning | Error

  function Rank(s: Status): nat {
    match s
    case Ok => 0
    case Warning => 1
    case Error => 2
  }

  /** The text shown in the `Estado` column. */
  function Label(s: Status): string {
    match s
    case Ok => "OK"
    case Warning => "WARNING"
    case Error => "ERROR"
  }

  /** Distinct statuses are shown with distinct labels. */
  lemma LabelInjective(s: Status, t: Status)
    ensures Label(s) == Label(t) ==> s == t
  {
  }

  /** The more severe of two statuses. */
  function Max(a: Status, b: Status): (r: Status)
    ensures Rank(r) >= Rank(a) && Rank(r) >= Rank(b)
    ensures r == a || r == b
  {
    if Rank(a) >= Rank(b) then a else b
  }

  /** The most severe of a list of statuses; `Ok` when the list is empty. */
  function MaxOf(ss: seq<Status>): (r: Status)
    ensures forall i :: 0 <= i < |ss| ==> Rank(ss[i]) <= Rank(r)
    ensures r == Ok || r in ss
    decreases |ss|
  {
    if ss == [] then Ok else Max(MaxOf(ss[..|ss| - 1]), ss[|ss| - 1])
  }

  /** `MaxOf` is `Ok` exactly when nothing but `Ok` was raised. */
  lemma {:induction false} MaxOfOkIff(ss: seq<Status>)
    ensures MaxOf(ss) == Ok <==> forall i :: 0 <= i < |ss| ==> ss[i] == Ok
    decreases |ss|
  {
    if ss != [] {
      var init := ss[..|ss| - 1];
      MaxOfOkIff(init);
      if forall i :: 0 <= i < |ss| ==> ss[i] == Ok {
        assert forall i :: 0 <= i < |init| ==> init[i] == Ok by {
          forall i | 0 <= i < |init| ensures init[i] == Ok {
            assert init[i] == ss[i];
          }
        }
      }
    }
  }

  /** Any `Error` in the list makes the maximum `Error`, whatever else is present. */
  lemma {:induction false} MaxOfErrorDominates(ss: seq<Status>)
    ensures MaxOf(ss) == Error <==> Error in ss
    decreases |ss|
  {
    if ss != [] {
      var init := ss[..|ss| - 1];
      MaxOfErrorDominates(init);
      assert ss == init + [ss[|ss| - 1]];
    }
  }
}
