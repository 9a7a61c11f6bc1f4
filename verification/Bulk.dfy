/**
 Bulk review (app/api/v1/stewardship.py): loops of independent decisions, and when the counts
 they report account for every id they were given.
 */
module Bulk {
  import opened Common
  import opened Values
  import opened EntityModel
  import opened Pipeline

  /** One approval of a bulk call, with its transaction's clock and the id PostgreSQL would generate. */
  datatype Attempt = Attempt(sid: nat, at: Time, newId: RecordId)

  /** The staging ids a bulk call was given. */
  function Sids(attempts: seq<Attempt>): seq<nat> {
    seq(|attempts|, i requires 0 <= i < |attempts| => attempts[i].sid)
  }

  datatype Tally = Tally(state: State, approved: nat, failed: nat, aborted: bool)

  /** Refusals are collected; any other error leaves the loop. */
  function Approvals(e: Entity, s: State, attempts: seq<Attempt>, actor: string, sod: bool,
                     note: Option<string>): Tally {
    if attempts == [] then Tally(s, 0, 0, false)
    else
      var t, a := Approvals(e, s, attempts[..|attempts| - 1], actor, sod, note), attempts[|attempts| - 1];
      if t.aborted then t
      else match ApproveVerdict(e, t.state, a.at, a.sid, actor, sod, a.newId)
        case Granted(_) => t.(state := Approve(e, t.state, a.at, a.sid, actor, sod, note, a.newId),
                              approved := t.approved + 1)
        case Refused(_) => t.(failed := t.failed + 1)
        case Violated => t.(aborted := true)
  }

  function Rejections(s: State, now: Time, sids: seq<nat>, actor: string, reason: string): State {
    if sids == [] then s
    else Reject(Rejections(s, now, sids[..|sids| - 1], actor, reason), now, sids[|sids| - 1], actor, reason)
  }

  /** The ids given that can be rejected, or those that cannot, in order. */
  function Rejecting(s: State, sids: seq<nat>, can: bool): seq<nat> {
    if sids == [] then []
    else
      var n := |sids| - 1;
      Rejecting(s, sids[..n], can) + if Rejectable(s, sids[n]) == can then [sids[n]] else []
  }

  /** Rejecting some rows changes nothing about which rows can be rejected. */
  lemma {:induction false} StillRejectable(s: State, now: Time, sids: seq<nat>, actor: string, reason: string, sid: nat)
    ensures Rejectable(Rejections(s, now, sids, actor, reason), sid) <==> Rejectable(s, sid)
  {
    if sids != [] {
      StillRejectable(s, now, sids[..|sids| - 1], actor, reason, sid);
    }
  }

  /** Approving the same rows one at a time, each call on its own. */
  function OneByOne(e: Entity, s: State, attempts: seq<Attempt>, actor: string, sod: bool,
                    note: Option<string>): State {
    if attempts == [] then s
    else
      var a := attempts[|attempts| - 1];
      Approve(e, OneByOne(e, s, attempts[..|attempts| - 1], actor, sod, note), a.at, a.sid, actor, sod, note, a.newId)
  }

  /** At its turn, the i-th single approval would run into a database constraint. */
  predicate Violates(e: Entity, s: State, attempts: seq<Attempt>, actor: string, sod: bool, note: Option<string>,
                     i: nat)
    requires i < |attempts|
  {
    var a := attempts[i];
    ApproveVerdict(e, OneByOne(e, s, attempts[..i], actor, sod, note), a.at, a.sid, actor, sod, a.newId).Violated?
  }

  /** Whether an approval violates a constraint depends on the ones before it only. */
  lemma ViolatesPrefix(e: Entity, s: State, attempts: seq<Attempt>, n: nat, actor: string, sod: bool,
                       note: Option<string>, i: nat)
    requires i < n <= |attempts|
    ensures Violates(e, s, attempts[..n], actor, sod, note, i) == Violates(e, s, attempts, actor, sod, note, i)
  {
    var before, a := attempts[..n], attempts[i];
    assert before[..i] == attempts[..i];
    var u := OneByOne(e, s, attempts[..i], actor, sod, note);
    assert Violates(e, s, before, actor, sod, note, i)
         == ApproveVerdict(e, u, a.at, a.sid, actor, sod, a.newId).Violated?;
  }

  lemma {:induction false} AbortedForGood(e: Entity, s: State, attempts: seq<Attempt>, n: nat, actor: string, sod: bool,
                                          note: Option<string>)
    requires n <= |attempts| && Approvals(e, s, attempts[..n], actor, sod, note).aborted
    ensures Approvals(e, s, attempts, actor, sod, note) == Approvals(e, s, attempts[..n], actor, sod, note)
    decreases |attempts|
  {
    if n < |attempts| {
      assert attempts[..|attempts| - 1][..n] == attempts[..n];
      AbortedForGood(e, s, attempts[..|attempts| - 1], n, actor, sod, note);
    } else {
      assert attempts[..n] == attempts;
    }
  }

  ghost predicate NoneViolates(e: Entity, s: State, attempts: seq<Attempt>, actor: string, sod: bool,
                               note: Option<string>) {
    forall i :: 0 <= i < |attempts| ==> !Violates(e, s, attempts, actor, sod, note, i)
  }

  lemma NoneViolatesLast(e: Entity, s: State, attempts: seq<Attempt>, actor: string, sod: bool, note: Option<string>)
    requires attempts != []
    ensures var before, a := attempts[..|attempts| - 1], attempts[|attempts| - 1];
      NoneViolates(e, s, attempts, actor, sod, note)
      <==> NoneViolates(e, s, before, actor, sod, note)
           && !ApproveVerdict(e, OneByOne(e, s, before, actor, sod, note), a.at, a.sid, actor, sod, a.newId).Violated?
  {
    hide ApproveVerdict, OneByOne;
    var n := |attempts| - 1;
    var before, a := attempts[..n], attempts[n];
    forall i | 0 <= i < n
      ensures Violates(e, s, attempts, actor, sod, note, i) == Violates(e, s, before, actor, sod, note, i)
    {
      ViolatesPrefix(e, s, attempts, n, actor, sod, note, i);
    }
    assert Violates(e, s, attempts, actor, sod, note, n)
        == ApproveVerdict(e, OneByOne(e, s, before, actor, sod, note), a.at, a.sid, actor, sod, a.newId).Violated?;
  }

  /**
   A bulk approval accounts for every id exactly when no single approval would violate a
   constraint, and then it leaves what approving the rows one by one leaves.
   */
  lemma {:induction false} BulkIsOneByOne(e: Entity, s: State, attempts: seq<Attempt>, actor: string, sod: bool,
                                          note: Option<string>)
    ensures var t := Approvals(e, s, attempts, actor, sod, note);
      && (t.approved + t.failed == |attempts| <==> NoneViolates(e, s, attempts, actor, sod, note))
      && (t.approved + t.failed == |attempts| <==> !t.aborted)
      && t.approved + t.failed <= |attempts|
      && (!t.aborted ==> t.state == OneByOne(e, s, attempts, actor, sod, note))
  {
    if attempts != [] {
      hide ApproveVerdict, NoneViolates;
      BulkIsOneByOne(e, s, attempts[..|attempts| - 1], actor, sod, note);
      NoneViolatesLast(e, s, attempts, actor, sod, note);
    }
  }

  /** What an aborted bulk approval leaves: the rows before the violation, approved; the rest, untried. */
  lemma {:induction false} BulkStopsAtViolation(e: Entity, s: State, attempts: seq<Attempt>, n: nat, actor: string,
                                                sod: bool, note: Option<string>)
    requires n < |attempts| && Violates(e, s, attempts, actor, sod, note, n)
    requires forall i :: 0 <= i < n ==> !Violates(e, s, attempts, actor, sod, note, i)
    ensures Approvals(e, s, attempts, actor, sod, note).state == OneByOne(e, s, attempts[..n], actor, sod, note)
    ensures Approvals(e, s, attempts, actor, sod, note).approved + Approvals(e, s, attempts, actor, sod, note).failed
         == n
  {
    hide ApproveVerdict, Approve;
    var before := attempts[..n];
    forall i | 0 <= i < n
      ensures !Violates(e, s, before, actor, sod, note, i)
    {
      ViolatesPrefix(e, s, attempts, n, actor, sod, note, i);
    }
    BulkIsOneByOne(e, s, before, actor, sod, note);
    assert attempts[..n + 1][..n] == before;
    AbortedForGood(e, s, attempts, n + 1, actor, sod, note);
  }

  /**
   Such a row exists: a DELETE that matched nothing, made valid by an edit. Put first, it ends the
   call before any other row is tried, and the reported counts are both zero.
   */
  lemma UnresolvedDeleteEndsBulk(e: Entity, s: State, attempts: seq<Attempt>, actor: string, sod: bool,
                                 note: Option<string>)
    requires attempts != [] && attempts[0].sid < |s.staging|
    requires var r := s.staging[attempts[0].sid];
      && r.op.OpDelete? && r.target.None? && r.isValid && r.status != Applied && r.status != Rejected
      && !(sod && BySelf(r, actor))
    ensures Approvals(e, s, attempts, actor, sod, note) == Tally(s, 0, 0, true)
  {
    assert attempts[..1][..0] == [];
    assert Approvals(e, s, attempts[..1], actor, sod, note) == Tally(s, 0, 0, true);
    AbortedForGood(e, s, attempts, 1, actor, sod, note);
  }

  // ---------------------------------------------------------------- what the reports say

  /** The i-th approval went through. */
  predicate GrantedAt(e: Entity, s: State, attempts: seq<Attempt>, actor: string, sod: bool, note: Option<string>,
                      i: nat)
    requires i < |attempts|
  {
    var a := attempts[i];
    ApproveVerdict(e, OneByOne(e, s, attempts[..i], actor, sod, note), a.at, a.sid, actor, sod, a.newId).Granted?
  }

  function GrantedOnes(e: Entity, s: State, attempts: seq<Attempt>, actor: string, sod: bool,
                     note: Option<string>): set<nat> {
    set i: nat | i < |attempts| && GrantedAt(e, s, attempts, actor, sod, note, i)
  }

  lemma GrantedLast(e: Entity, s: State, attempts: seq<Attempt>, actor: string, sod: bool, note: Option<string>)
    requires attempts != []
    ensures var n := |attempts| - 1;
      var before := GrantedOnes(e, s, attempts[..n], actor, sod, note);
      && n !in before
      && GrantedOnes(e, s, attempts, actor, sod, note)
         == before + if GrantedAt(e, s, attempts, actor, sod, note, n) then {n} else {}
  {
    hide ApproveVerdict, OneByOne;
    var n := |attempts| - 1;
    forall i: nat | i < n
      ensures GrantedAt(e, s, attempts, actor, sod, note, i) == GrantedAt(e, s, attempts[..n], actor, sod, note, i)
    {
      assert attempts[..n][..i] == attempts[..i];
    }
  }

  /** When no approval violates a constraint, the counts are those of the approvals granted and refused. */
  lemma {:induction false} TallyMeans(e: Entity, s: State, attempts: seq<Attempt>, actor: string, sod: bool,
                                      note: Option<string>)
    requires NoneViolates(e, s, attempts, actor, sod, note)
    ensures var t := Approvals(e, s, attempts, actor, sod, note);
      var granted := GrantedOnes(e, s, attempts, actor, sod, note);
      !t.aborted && t.approved == |granted| && t.failed == |attempts| - |granted|
  {
    if attempts != [] {
      hide ApproveVerdict, NoneViolates, OneByOne, GrantedOnes;
      var n := |attempts| - 1;
      NoneViolatesLast(e, s, attempts, actor, sod, note);
      TallyMeans(e, s, attempts[..n], actor, sod, note);
      BulkIsOneByOne(e, s, attempts[..n], actor, sod, note);
      GrantedLast(e, s, attempts, actor, sod, note);
    }
  }

  /** A bulk rejection reports each id it was given once, as rejected exactly if its row can be. */
  lemma RejectingMeans(s: State, sids: seq<nat>)
    ensures multiset(sids) == multiset(Rejecting(s, sids, true)) + multiset(Rejecting(s, sids, false))
    ensures forall sid :: sid in Rejecting(s, sids, true) ==> sid < |s.staging| && s.staging[sid].status != Applied
    ensures forall sid :: sid in Rejecting(s, sids, false) ==> sid < |s.staging| ==> s.staging[sid].status == Applied
  {
    RejectingSorts(s, sids, true);
    RejectingSorts(s, sids, false);
    RejectingSplits(s, sids);
  }

  lemma {:induction false} RejectingSorts(s: State, sids: seq<nat>, can: bool)
    ensures forall sid :: sid in Rejecting(s, sids, can) ==> Rejectable(s, sid) == can
  {
    if sids != [] {
      hide Rejectable;
      RejectingSorts(s, sids[..|sids| - 1], can);
    }
  }

  lemma {:induction false} RejectingSplits(s: State, sids: seq<nat>)
    ensures multiset(sids) == multiset(Rejecting(s, sids, true)) + multiset(Rejecting(s, sids, false))
  {
    if sids != [] {
      var n := |sids| - 1;
      RejectingSplits(s, sids[..n]);
      assert sids == sids[..n] + [sids[n]];
      var can := Rejectable(s, sids[n]);
      assert Rejecting(s, sids, can) == Rejecting(s, sids[..n], can) + [sids[n]];
      assert Rejecting(s, sids, !can) == Rejecting(s, sids[..n], !can) + [];
      hide Rejecting, Rejectable;
    }
  }

  /** It leaves every row that can be rejected and was named rejected with its reason, and the others alone. */
  lemma {:induction false} RejectionsMean(s: State, now: Time, sids: seq<nat>, actor: string, reason: string)
    ensures var t := Rejections(s, now, sids, actor, reason);
      && t.landing == s.landing && t.book == s.book && t.batches == s.batches && |t.staging| == |s.staging|
      && forall sid: nat :: sid < |s.staging| ==>
           t.staging[sid] ==
             if sid in sids && s.staging[sid].status != Applied
             then s.staging[sid].(status := Rejected, reviewedBy := Some(actor), reviewedAt := Some(now),
                                  note := Some(reason))
             else s.staging[sid]
  {
    if sids != [] {
      var n := |sids| - 1;
      RejectionsMean(s, now, sids[..n], actor, reason);
      assert sids == sids[..n] + [sids[n]];
    }
  }
}
