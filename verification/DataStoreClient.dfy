/** Accounting records on their way from a client to the data store. */
module DataStoreClients {
  import opened Registers

  const BUNDLE: nat := 5000

  /** How one attempt to deliver a bundle ends: at the data store, at the failover, or with an error, which the
      client gives up on. An exception may come out of either call. */
  datatype Attempt = Delivered | FailedOver | GaveUp

  datatype Reply = Accepted | Rejected | Raised

  /** What the program meets while it sends a bundle: how the call to the data store ends, the time it is then, and how
      the call to the failover ends if it is made. */
  datatype Answers = Answers(reply: Reply, now: int, failover: Reply)

  datatype CommitResult = Sent(count: nat) | CommitError

  function Least(a: nat, b: nat): nat {
    if a < b then a else b
  }

  function Bundle(list: seq<Record>): seq<Record> {
    list[..Least(BUNDLE, |list|)]
  }

  function AfterBundle(list: seq<Record>): seq<Record> {
    list[Least(BUNDLE, |list|)..]
  }

  // Where the bundles of a commit go, `answers` being what is met for each of them.

  /** The last success before bundle `n`, when `before` is that before the commit. */
  function LastSuccess(answers: nat -> Answers, n: nat, before: int): int {
    if n == 0 then before
    else if answers(n - 1).reply.Accepted? then answers(n - 1).now
    else LastSuccess(answers, n - 1, before)
  }

  /** The bundle is accepted, or rejected so long after the last success that the failover is asked, which accepts. */
  predicate Leaves(answers: nat -> Answers, n: nat, before: int, p: Policy) {
    var a := answers(n);
    || a.reply.Accepted?
    || (&& a.reply.Rejected? && p.failoverEnabled && a.now - LastSuccess(answers, n, before) > p.grace
        && a.failover.Accepted?)
  }

  /** How many records the first `i` bundles hold. */
  function Mark(all: seq<Record>, i: nat): (m: nat)
    ensures m <= |all|
  {
    if i == 0 then 0 else Least(Mark(all, i - 1) + BUNDLE, |all|)
  }

  /** What the client does about failures, and what a commit changes besides the list. */
  datatype Policy = Policy(failoverEnabled: bool, grace: int)

  datatype Books = Books(delivered: seq<Record>, failedOver: seq<Record>, lastSuccess: int)

  /** What becomes of a bundle. */
  ghost predicate Attempted(attempt: Attempt, bundle: seq<Record>, a: Answers, p: Policy, before: Books, after: Books) {
    && (attempt.Delivered? <==> a.reply.Accepted?)
    && (attempt.FailedOver? <==>
          a.reply.Rejected? && p.failoverEnabled && a.now - before.lastSuccess > p.grace && a.failover.Accepted?)
    && after == (match attempt
                 case Delivered => Books(before.delivered + bundle, before.failedOver, a.now)
                 case FailedOver => before.(failedOver := before.failedOver + bundle)
                 case GaveUp => before)
  }

  /** The first `n` bundles of the list left and the next one did not, unless there is none. Each is now where it was
      accepted. */
  ghost predicate SentBy(answers: nat -> Answers, all: seq<Record>, n: nat, list: seq<Record>, p: Policy, before: Books,
                         after: Books)
  {
    && (forall i: nat :: i < n ==> Leaves(answers, i, before.lastSuccess, p))
    && (list != [] ==> !Leaves(answers, n, before.lastSuccess, p))
    && after == Books(before.delivered + Arrived(all, answers, n, true),
                      before.failedOver + Arrived(all, answers, n, false),
                      LastSuccess(answers, n, before.lastSuccess))
  }

  lemma SentOneMore(answers: nat -> Answers, all: seq<Record>, n: nat, list: seq<Record>, p: Policy, start: Books,
                    before: Books, after: Books, attempt: Attempt)
    requires SentBy(answers, all, n, [], p, start, before)
    requires Attempted(attempt, all[Mark(all, n)..Mark(all, n + 1)], answers(n), p, before, after)
    ensures attempt.GaveUp? ==> SentBy(answers, all, n, list, p, start, after)
    ensures !attempt.GaveUp? ==> SentBy(answers, all, n + 1, [], p, start, after)
  {
    var bundle := all[Mark(all, n)..Mark(all, n + 1)];
    assert Leaves(answers, n, start.lastSuccess, p) <==> !attempt.GaveUp?;
    assert Arrived(all, answers, n + 1, true)
      == Arrived(all, answers, n, true) + if attempt.Delivered? then bundle else [];
    assert Arrived(all, answers, n + 1, false)
      == Arrived(all, answers, n, false) + if attempt.Delivered? then [] else bundle;
  }

  /** Of the first `n` bundles, the records of those that the data store accepted, or of the others. */
  function Arrived(all: seq<Record>, answers: nat -> Answers, n: nat, accepted: bool): seq<Record> {
    if n == 0 then []
    else
      Arrived(all, answers, n - 1, accepted)
      + if answers(n - 1).reply.Accepted? == accepted then all[Mark(all, n - 1)..Mark(all, n)] else []
  }

  lemma {:induction false} MarkIs(all: seq<Record>, i: nat)
    ensures Mark(all, i) == Least(i * BUNDLE, |all|)
  {
    if i > 0 { MarkIs(all, i - 1); }
  }

  lemma BundleIsNext(all: seq<Record>, i: nat)
    ensures var list := all[Mark(all, i)..];
      && Bundle(list) == all[Mark(all, i)..Mark(all, i + 1)] && AfterBundle(list) == all[Mark(all, i + 1)..]
      && Mark(all, i) + |Bundle(list)| == Mark(all, i + 1)
      && (list != [] ==> |AfterBundle(list)| < |list|)
  {}

  lemma JoinsOneSide(one: seq<Record>, two: seq<Record>, next: seq<Record>, first: bool, whole: seq<Record>)
    requires multiset(one) + multiset(two) == multiset(whole)
    ensures multiset(one + if first == true then next else []) + multiset(two + if first == false then next else [])
         == multiset(whole + next)
  {
    assert multiset(whole + next) == multiset(whole) + multiset(next);
    if first { assert two + [] == two; } else { assert one + [] == one; }
  }

  lemma MarkedBundle(all: seq<Record>, n: nat)
    requires n > 0
    ensures all[..Mark(all, n)] == all[..Mark(all, n - 1)] + all[Mark(all, n - 1)..Mark(all, n)]
  {}

  /** What the first bundles held has arrived at one place or the other. */
  lemma {:induction false} ArrivedIsAll(all: seq<Record>, answers: nat -> Answers, n: nat)
    ensures multiset(Arrived(all, answers, n, true)) + multiset(Arrived(all, answers, n, false))
         == multiset(all[..Mark(all, n)])
  {
    if n > 0 {
      ArrivedIsAll(all, answers, n - 1);
      MarkedBundle(all, n);
      JoinsOneSide(Arrived(all, answers, n - 1, true), Arrived(all, answers, n - 1, false),
                   all[Mark(all, n - 1)..Mark(all, n)], answers(n - 1).reply.Accepted?, all[..Mark(all, n - 1)]);
    }
  }

  lemma WhatLeft(answers: nat -> Answers, all: seq<Record>, n: nat, list: seq<Record>, p: Policy, before: Books,
                 after: Books)
    requires SentBy(answers, all, n, list, p, before, after)
    ensures multiset(after.delivered) + multiset(after.failedOver)
         == (multiset(before.delivered) + multiset(before.failedOver)) + multiset(all[..Mark(all, n)])
  {
    ArrivedIsAll(all, answers, n);
  }

  /** As long as no more than the grace time has passed since the last success before the commit, nothing goes to the
      failover. */
  lemma {:induction false} NoFailoverInTime(answers: nat -> Answers, all: seq<Record>, n: nat, before: int, p: Policy)
    requires forall i: nat :: i < n ==> Leaves(answers, i, before, p)
    requires forall i: nat :: i < n ==> before <= answers(i).now <= before + p.grace
    ensures Arrived(all, answers, n, false) == [] && LastSuccess(answers, n, before) >= before
  {
    if n > 0 {
      NoFailoverInTime(answers, all, n - 1, before, p);
      assert Leaves(answers, n - 1, before, p);
    }
  }

  lemma Remain(added: multiset<Record>, list: seq<Record>, left: seq<Record>, rest: seq<Record>, gone: multiset<Record>)
    requires list == left + rest && added == multiset(list) + gone
    ensures added == multiset(rest) + (gone + multiset(left))
  {}

  class DataStoreClient {
    var registersList: seq<Record>
    var failoverEnabled: bool
    var lastSuccessfulCommit: int
    const maxTimeRetrying: int
    ghost var added: multiset<Record>
    ghost var delivered: seq<Record>
    ghost var failedOver: seq<Record>

    /** What was added either waits or has left. */
    ghost predicate Valid()
      reads this
    {
      added == multiset(registersList) + Gone()
    }

    constructor (retryGraceTime: int, failoverEnabled: bool, now: int)
      ensures Valid() && added == multiset{} && registersList == []
      ensures OnFailure() == Policy(failoverEnabled, retryGraceTime) && Ledger() == Books([], [], now)
    {
      this.registersList, this.failoverEnabled, lastSuccessfulCommit := [], failoverEnabled, now;
      maxTimeRetrying, added, delivered, failedOver := retryGraceTime, multiset{}, [], [];
    }

    /** The records that have left. */
    ghost function Gone(): multiset<Record>
      reads this
    {
      multiset(delivered) + multiset(failedOver)
    }

    function OnFailure(): Policy
      reads this
    {
      Policy(failoverEnabled, maxTimeRetrying)
    }

    ghost function Ledger(): Books
      reads this
    {
      Books(delivered, failedOver, lastSuccessfulCommit)
    }

    /** Only a descendant of the base type with fit values is taken, and it is kept unless accounting is disabled. */
    method AddRegister(register: Register, accountingDisabled: bool) returns (ok: bool)
      requires Valid()
      modifies `registersList, `added
      ensures Valid() && Gone() == old(Gone())
      ensures ok <==> Descends(register.cls) && Fits(register)
      ensures registersList
        == old(registersList) + if ok && !accountingDisabled then [ToRecord(register)] else []
    {
      ok := CheckBaseType(register.cls);
      if !ok { return; }
      ok := CheckValues(register);
      if !ok || accountingDisabled { return; }
      registersList := registersList + [ToRecord(register)];
      added := added + multiset{ToRecord(register)};
    }

    /** The call to the data store; only an accepted bundle has arrived. */
    method CommitRegisters(bundle: seq<Record>, answer: Reply) returns (reply: Reply)
      modifies `delivered
      ensures reply == answer
      ensures delivered == if reply.Accepted? then old(delivered) + bundle else old(delivered)
    {
      reply := answer;
      if reply.Accepted? { delivered := delivered + bundle; }
    }

    method SendToFailover(bundle: seq<Record>, answer: Reply) returns (reply: Reply)
      modifies `failedOver
      ensures reply == answer
      ensures failedOver == if reply.Accepted? then old(failedOver) + bundle else old(failedOver)
    {
      reply := answer;
      if reply.Accepted? { failedOver := failedOver + bundle; }
    }

    /** One round of the loop of Commit. */
    method Attempts(bundle: seq<Record>, answers: Answers) returns (attempt: Attempt)
      modifies `lastSuccessfulCommit, `delivered, `failedOver
      ensures Attempted(attempt, bundle, answers, OnFailure(), old(Ledger()), Ledger())
    {
      var reply := CommitRegisters(bundle, answers.reply);
      if reply.Raised? { return GaveUp; }
      if reply.Accepted? {
        lastSuccessfulCommit := answers.now;
        return Delivered;
      }
      if !failoverEnabled || answers.now - lastSuccessfulCommit <= maxTimeRetrying { return GaveUp; }
      var failover := SendToFailover(bundle, answers.failover);
      attempt := if failover.Accepted? then FailedOver else GaveUp;
    }

    /** Whatever happens, the records leave in bundles from the front, every record that left is at the data store
        or at the failover, and the others wait as before. A success counts the records that left, which are all. */
    method Commit(answers: nat -> Answers) returns (result: CommitResult, ghost left: seq<Record>, ghost bundles: nat)
      requires Valid()
      modifies this
      ensures Valid() && added == old(added) && failoverEnabled == old(failoverEnabled)
      ensures old(registersList) == left + registersList && |left| == Mark(old(registersList), bundles)
      ensures Gone() == old(Gone()) + multiset(left)
      ensures result == if registersList == [] then Sent(|left|) else CommitError
      ensures SentBy(answers, old(registersList), bundles, registersList, OnFailure(), old(Ledger()), Ledger())
    {
      var list := registersList;
      registersList := [];
      var sent, rest;
      sent, rest, bundles := SendAll(list, answers);
      left := list[..sent];
      assert list == left + rest;
      WhatLeft(answers, list, bundles, rest, OnFailure(), old(Ledger()), Ledger());
      Remain(added, list, left, rest, old(Gone()));
      registersList := registersList + rest;
      assert registersList == rest;
      result := if rest == [] then Sent(sent) else CommitError;
    }

    /** The loop of a commit: until nothing is left or a bundle cannot be delivered. */
    method SendAll(all: seq<Record>, answers: nat -> Answers) returns (sent: nat, list: seq<Record>, ghost bundles: nat)
      modifies `lastSuccessfulCommit, `delivered, `failedOver
      ensures sent == Mark(all, bundles) && list == all[sent..]
      ensures SentBy(answers, all, bundles, list, OnFailure(), old(Ledger()), Ledger())
    {
      sent, list, bundles := 0, all, 0;
      var going, round: nat := true, 0;
      while list != [] && going
        invariant round == bundles && sent == Mark(all, bundles) && list == all[sent..]
        invariant SentBy(answers, all, bundles, if going then [] else list, OnFailure(), old(Ledger()), Ledger())
        decreases |list|, going
      {
        var bundle := Bundle(list);
        ghost var before := Ledger();
        BundleIsNext(all, bundles);
        var attempt := Attempts(bundle, answers(round));
        SentOneMore(answers, all, bundles, list, OnFailure(), old(Ledger()), before, Ledger(), attempt);
        if attempt.GaveUp? {
          going := false;
        } else {
          sent := sent + |bundle|;
          list := AfterBundle(list);
          bundles := bundles + 1;
          round := round + 1;
        }
      }
    }
  }
}
