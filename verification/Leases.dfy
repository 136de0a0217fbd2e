/** The local lease of a worker (internal/base/base.go, Lease), whose clock reading is a parameter. */
module Leases {
  /** `closes` counts the calls of close on the channel; a second one would panic. */
  datatype LeaseState = LeaseState(expireAt: int, notified: bool, closes: nat)

  predicate ValidAt(l: LeaseState, now: int) {
    now <= l.expireAt
  }

  /** The calls that the heartbeater makes on a lease, with the time at which each is made. */
  datatype LeaseCall = ResetTo(expireAt: int, now: int) | Notify(now: int)

  function Apply(l: LeaseState, c: LeaseCall): LeaseState {
    if ValidAt(l, c.now) then (if c.ResetTo? then l.(expireAt := c.expireAt) else l)
    else if c.Notify? && !l.notified then l.(notified := true, closes := l.closes + 1)
    else l
  }

  function ApplyAll(l: LeaseState, calls: seq<LeaseCall>): LeaseState
    decreases calls
  {
    if calls == [] then l else ApplyAll(Apply(l, calls[0]), calls[1..])
  }

  /** The clock does not run backwards, from t on. */
  ghost predicate Monotone(t: int, calls: seq<LeaseCall>) {
    && (forall i | 0 <= i < |calls| :: t <= calls[i].now)
    && (forall i, j | 0 <= i < j < |calls| :: calls[i].now <= calls[j].now)
  }

  /** The channel is closed at most once, and only of a lease that had expired by time t. */
  ghost predicate WellKept(l: LeaseState, t: int) {
    && l.closes == (if l.notified then 1 else 0)
    && (l.notified ==> l.expireAt < t)
  }

  /** An expired lease stays as it is, except for the notification. */
  lemma {:induction false} ExpiredStays(l: LeaseState, t: int, calls: seq<LeaseCall>)
    requires !ValidAt(l, t) && Monotone(t, calls)
    ensures ApplyAll(l, calls).expireAt == l.expireAt
    ensures l.notified ==> ApplyAll(l, calls) == l
    decreases calls
  {
    if calls != [] {
      ExpiredStays(Apply(l, calls[0]), t, calls[1..]);
    }
  }

  function LastTime(t: int, calls: seq<LeaseCall>): int {
    if calls == [] then t else calls[|calls| - 1].now
  }

  lemma {:induction false} CallsKeepWell(l: LeaseState, t: int, calls: seq<LeaseCall>)
    requires WellKept(l, t) && Monotone(t, calls)
    ensures WellKept(ApplyAll(l, calls), LastTime(t, calls))
    decreases calls
  {
    if calls != [] {
      var u := calls[0].now;
      assert WellKept(Apply(l, calls[0]), u);
      assert Monotone(u, calls[1..]) by {
        assert forall i | 0 <= i < |calls[1..]| :: calls[1..][i] == calls[i + 1];
      }
      CallsKeepWell(Apply(l, calls[0]), u, calls[1..]);
    }
  }

  /**
   From a new lease, over any calls with a clock that never runs backwards: the channel is closed
   at most once, and once it is closed the lease is invalid at every later time, whatever calls follow.
   */
  lemma ClosedNeverRevives(expireAt: int, t: int, before: seq<LeaseCall>, after: seq<LeaseCall>, now: int)
    requires Monotone(t, before) && Monotone(LastTime(t, before), after) && LastTime(t, before) <= now
    ensures var l := ApplyAll(LeaseState(expireAt, false, 0), before);
            var l' := ApplyAll(l, after);
            && l.closes <= 1 && l'.closes <= 1
            && (l.closes == 1 ==> l' == l && !ValidAt(l', now))
  {
    var l := ApplyAll(LeaseState(expireAt, false, 0), before);
    CallsKeepWell(LeaseState(expireAt, false, 0), t, before);
    CallsKeepWell(l, LastTime(t, before), after);
    if l.notified {
      ExpiredStays(l, LastTime(t, before), after);
    }
  }

  /** When a lease ends after some calls: the last Reset that came in time says so. */
  function Expiry(e: int, calls: seq<LeaseCall>): int
    decreases calls
  {
    if calls == [] then e
    else Expiry(if calls[0].ResetTo? && calls[0].now <= e then calls[0].expireAt else e, calls[1..])
  }

  lemma ExpiryFirst(e: int, calls: seq<LeaseCall>)
    requires calls != []
    ensures Expiry(e, calls) == Expiry(Expiry(e, [calls[0]]), calls[1..])
  {
  }

  /** Some Notify came when the lease had ended. */
  ghost predicate Missed(e: int, calls: seq<LeaseCall>) {
    exists i | 0 <= i < |calls| :: calls[i].Notify? && Expiry(e, calls[..i]) < calls[i].now
  }

  lemma MissedFirst(e: int, calls: seq<LeaseCall>)
    requires calls != []
    ensures var e' := Expiry(e, calls[..1]);
            Missed(e, calls) <==> (calls[0].Notify? && e < calls[0].now) || Missed(e', calls[1..])
  {
    var rest := calls[1..];
    var e' := Expiry(e, calls[..1]);
    assert calls[..0] == [] && calls[..1][1..] == [];
    forall i | 0 <= i < |rest| ensures Expiry(e, calls[..i + 1]) == Expiry(e', rest[..i]) {
      ExpiryFirst(e, calls[..i + 1]);
      assert calls[..1] == [calls[0]] && calls[..i + 1][0] == calls[0] && calls[..i + 1][1..] == rest[..i];
    }
    if Missed(e, calls) {
      var i :| 0 <= i < |calls| && calls[i].Notify? && Expiry(e, calls[..i]) < calls[i].now;
      if i > 0 { assert rest[i - 1] == calls[i]; }
    }
    if Missed(e', rest) {
      var i :| 0 <= i < |rest| && rest[i].Notify? && Expiry(e', rest[..i]) < rest[i].now;
      assert calls[i + 1] == rest[i];
    }
    if calls[0].Notify? && e < calls[0].now { assert Expiry(e, calls[..0]) < calls[0].now; }
  }

  lemma {:induction false} CallsNotify(l: LeaseState, calls: seq<LeaseCall>)
    ensures var l' := ApplyAll(l, calls);
            && l'.expireAt == Expiry(l.expireAt, calls)
            && (l'.notified <==> l.notified || Missed(l.expireAt, calls))
            && l'.closes == l.closes + (if !l.notified && Missed(l.expireAt, calls) then 1 else 0)
    decreases calls
  {
    if calls != [] {
      MissedFirst(l.expireAt, calls);
      assert calls[..1][1..] == [];
      CallsNotify(Apply(l, calls[0]), calls[1..]);
    }
  }

  /** Over any calls the channel of a new lease is closed, and once, exactly if a Notify came when it had ended. */
  lemma ClosedExactly(expireAt: int, calls: seq<LeaseCall>)
    ensures var l := ApplyAll(LeaseState(expireAt, false, 0), calls);
            && l.closes == (if Missed(expireAt, calls) then 1 else 0)
            && (l.notified <==> Missed(expireAt, calls))
            && l.expireAt == Expiry(expireAt, calls)
  {
    CallsNotify(LeaseState(expireAt, false, 0), calls);
  }

  class Lease {
    var expireAt: int
    var notified: bool
    ghost var closes: nat

    ghost function View(): LeaseState
      reads this
    {
      LeaseState(expireAt, notified, closes)
    }

    constructor (expirationTime: int)
      ensures View() == LeaseState(expirationTime, false, 0)
    {
      expireAt, notified, closes := expirationTime, false, 0;
    }

    method IsValid(now: int) returns (valid: bool)
      ensures valid == ValidAt(View(), now)
      ensures valid <==> now <= expireAt
    {
      valid := expireAt > now || expireAt == now;
    }

    method Reset(expirationTime: int, now: int) returns (done: bool)
      modifies this
      ensures View() == Apply(old(View()), ResetTo(expirationTime, now))
      ensures done <==> now <= old(expireAt)
      ensures expireAt == (if done then expirationTime else old(expireAt)) && notified == old(notified)
    {
      var valid := IsValid(now);
      if !valid { return false; }
      expireAt := expirationTime;
      done := true;
    }

    method NotifyExpiration(now: int) returns (sent: bool)
      modifies this
      ensures View() == Apply(old(View()), Notify(now))
      ensures sent <==> old(expireAt) < now
      ensures expireAt == old(expireAt) && (notified <==> old(notified) || sent)
    {
      var valid := IsValid(now);
      if valid { return false; }
      if !notified {
        notified := true;
        closes := closes + 1;
      }
      sent := true;
    }
  }
}
