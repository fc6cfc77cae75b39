/** Domain types shared by every layer (crates/common/src/lib.rs), and the one sequence
    operation, filtering, that most of them use. */
module Common {

  datatype Option<+T> = None | Some(value: T)

  type Uuid = nat
  type Account = string

  /** Nanoseconds on the UTC clock. */
  type Time = int

  datatype Asset = Native | Credit(code: string, issuer: string)

  /** `amount` is the parsed decimal string, 0.0 when it does not parse. */
  datatype Transaction = Transaction(
    txHash: string,
    source: Account,
    destination: Option<Account>,
    asset: Asset,
    amount: real,
    timestamp: Time
  )

  datatype Severity = Low | Medium | High | Critical

  datatype TriggeredRule = TriggeredRule(ruleId: string, severity: Severity)

  datatype Status = Open | UnderInvestigation | Escalated | Dismissed | ConfirmedSuspicious

  datatype Role = Viewer | Investigator | Admin {
    predicate CanDecide() {
      Investigator? || Admin?
    }
  }

  datatype Alert = Alert(
    alertId: Uuid,
    tx: Transaction,
    triggeredRules: seq<TriggeredRule>,
    anomalyScore: real,
    severity: Severity,
    status: Status,
    createdAt: Time,
    updatedAt: Time
  )

  datatype Decision = Decision(alertId: Uuid, investigator: string, decision: Status, notes: string)

  /** The source of a transfer, and its destination when it has one. */
  function Parties(tx: Transaction): set<Account> {
    {tx.source} + (if tx.destination.Some? then {tx.destination.value} else {})
  }

  /** Where a 64-bit float may be non-finite and the code looks, it is modelled by cases. */
  datatype Float = Finite(value: real) | NaN | PosInf | NegInf

  lemma CutTwice<T>(s: seq<T>, i: nat, j: nat)
    requires i <= j <= |s|
    ensures s == s[..i] + s[i..j] + s[j..]
  {
  }

  function Filter<T>(keep: T -> bool, s: seq<T>): seq<T> {
    if s == [] then []
    else Filter(keep, s[..|s| - 1]) + if keep(s[|s| - 1]) then [s[|s| - 1]] else []
  }

  lemma FilterSnoc<T>(keep: T -> bool, s: seq<T>, x: T)
    ensures Filter(keep, s + [x]) == Filter(keep, s) + if keep(x) then [x] else []
  {
    assert (s + [x])[..|s|] == s;
  }

  lemma {:induction false} FilterConcat<T>(keep: T -> bool, a: seq<T>, b: seq<T>)
    ensures Filter(keep, a + b) == Filter(keep, a) + Filter(keep, b)
  {
    if b == [] {
      assert a + b == a;
    } else {
      var front, last := b[..|b| - 1], b[|b| - 1];
      assert a + b == (a + front) + [last] && b == front + [last];
      FilterSnoc(keep, a + front, last);
      FilterConcat(keep, a, front);
    }
  }

  lemma {:induction false} FilterMembers<T>(keep: T -> bool, s: seq<T>, x: T)
    ensures x in Filter(keep, s) <==> x in s && keep(x)
  {
    if s != [] {
      FilterMembers(keep, s[..|s| - 1], x);
      assert s == s[..|s| - 1] + [s[|s| - 1]];
    }
  }

  lemma {:induction false} FilterAll<T>(keep: T -> bool, s: seq<T>)
    requires forall i :: 0 <= i < |s| ==> keep(s[i])
    ensures Filter(keep, s) == s
  {
    if s != [] {
      FilterAll(keep, s[..|s| - 1]);
      assert s == s[..|s| - 1] + [s[|s| - 1]];
    }
  }

  lemma SubsetSize<T>(a: set<T>, b: set<T>)
    requires a <= b
    ensures |a| <= |b|
  {
    assert b == a + (b - a);
  }
}
