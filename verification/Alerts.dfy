/** Budget alerts: when one is due, and the claim, send, unclaim protocol that keeps it from being sent
    twice. */
module Alerts {
  import opened Common
  import opened Calendar

  datatype AlertType = Exceeded | Warning

  /** The primary key of sent_alerts. */
  datatype AlertKey = AlertKey(userID: Id, categoryID: Id, month: MonthIndex, kind: AlertType)

  datatype Budget = Budget(categoryID: Id, spentMinor: int, limitMinor: int)

  /** The notification rule: none wired, not readable, or a decision. */
  datatype Gate = NoGate | Unreadable | Decided(send: bool, email: bool)

  function AlertTypeFor(spentMinor: int, limitMinor: int): Option<AlertType> {
    if limitMinor <= 0 then None
    else
      var ratio := spentMinor as real / limitMinor as real;
      if ratio >= 1.0 then Some(Exceeded) else if ratio >= 0.8 then Some(Warning) else None
  }

  lemma RatioAtLeast(spent: real, limit: real, threshold: real)
    requires limit > 0.0
    ensures spent / limit >= threshold <==> spent >= threshold * limit
  {
    var ratio := spent / limit;
    assert ratio * limit == spent;
    if ratio >= threshold {
      assert (ratio - threshold) * limit >= 0.0;
    } else {
      assert (threshold - ratio) * limit > 0.0;
    }
  }

  /** The thresholds in whole amounts: all of the limit, or four fifths of it. */
  lemma Thresholds(spentMinor: int, limitMinor: int)
    requires limitMinor > 0
    ensures AlertTypeFor(spentMinor, limitMinor) == Some(Exceeded) <==> limitMinor <= spentMinor
    ensures AlertTypeFor(spentMinor, limitMinor) == Some(Warning)
       <==> spentMinor < limitMinor && 4 * limitMinor <= 5 * spentMinor
  {
    RatioAtLeast(spentMinor as real, limitMinor as real, 1.0);
    RatioAtLeast(spentMinor as real, limitMinor as real, 0.8);
  }

  // ---------------------------------------------------------------- the ratio in floating point

  const TWO_TO_53: int := 0x20_0000_0000_0000

  /** The double nearest to four fifths. */
  const FOUR_FIFTHS: real := 7205759403792794.0 / TWO_TO_53 as real

  /** What the ratio needs of rounding to nearest: it keeps the order, and the doubles one, one half and
      FOUR_FIFTHS; between one half and one it moves a number by at most half the spacing of doubles. */
  ghost predicate RoundsToNearest(fl: real -> real) {
    && (forall x: real, y: real :: x <= y ==> fl(x) <= fl(y))
    && fl(1.0) == 1.0 && fl(0.5) == 0.5 && fl(FOUR_FIFTHS) == FOUR_FIFTHS && fl(0.8) == FOUR_FIFTHS
    && forall x: real :: 0.5 <= x <= 1.0 ==> fl(x) - x <= 0.5 / TWO_TO_53 as real
  }

  /** The alert as computed: amounts up to 2^53 convert exactly, the division and the constant round. */
  ghost function RoundedAlertType(fl: real -> real, spentMinor: int, limitMinor: int): Option<AlertType> {
    if limitMinor <= 0 then None
    else
      var ratio := fl(spentMinor as real / limitMinor as real);
      if ratio >= 1.0 then Some(Exceeded) else if ratio >= fl(0.8) then Some(Warning) else None
  }

  lemma NotMore(a: real, b: real, limit: real)
    requires limit > 0.0 && a * limit <= b * limit
    ensures a <= b
  {
    assert (a - b) * limit <= 0.0;
  }

  lemma RatioBelow(spent: real, limit: real, threshold: real, gap: real)
    requires limit > 0.0 && spent <= threshold * limit - gap
    ensures spent / limit <= threshold - gap / limit
  {
    var ratio := spent / limit;
    assert ratio * limit == spent && (gap / limit) * limit == gap;
    var short := threshold - gap / limit;
    assert short * limit == threshold * limit - gap;
    NotMore(ratio, short, limit);
  }

  /** A ratio short of one rounds to less than one: it is at least 1 / limit short. */
  lemma NotExceeded(fl: real -> real, spentMinor: int, limitMinor: int)
    requires RoundsToNearest(fl) && 0 < limitMinor <= TWO_TO_53 && spentMinor < limitMinor
    ensures fl(spentMinor as real / limitMinor as real) < 1.0
  {
    var ratio, limit := spentMinor as real / limitMinor as real, limitMinor as real;
    RatioBelow(spentMinor as real, limit, 1.0, 1.0);
    assert 1.0 / limit >= 1.0 / TWO_TO_53 as real by {
      RatioAtLeast(1.0, limit, 1.0 / TWO_TO_53 as real);
    }
    if ratio < 0.5 {
      assert fl(ratio) <= fl(0.5);
    }
  }

  /** A ratio short of four fifths rounds to less than FOUR_FIFTHS: it is at least 1 / (5 * limit) short. */
  lemma NotWarned(fl: real -> real, spentMinor: int, limitMinor: int)
    requires RoundsToNearest(fl) && 0 < limitMinor <= TWO_TO_53 && 5 * spentMinor < 4 * limitMinor
    ensures fl(spentMinor as real / limitMinor as real) < FOUR_FIFTHS
  {
    var ratio, limit := spentMinor as real / limitMinor as real, limitMinor as real;
    RatioBelow(spentMinor as real, limit, 0.8, 0.2);
    assert 0.2 / limit >= 0.2 / TWO_TO_53 as real by {
      RatioAtLeast(0.2, limit, 0.2 / TWO_TO_53 as real);
    }
    if ratio < 0.5 {
      assert fl(ratio) <= fl(0.5);
    }
  }

  /** Rounding never changes the alert while the limit is no more than 2^53: a ratio below a threshold is
      too far below it to round up to it. */
  lemma {:induction false} RoundingIsHarmless(fl: real -> real, spentMinor: int, limitMinor: int)
    requires RoundsToNearest(fl) && limitMinor <= TWO_TO_53
    ensures RoundedAlertType(fl, spentMinor, limitMinor) == AlertTypeFor(spentMinor, limitMinor)
  {
    if limitMinor > 0 {
      var ratio := spentMinor as real / limitMinor as real;
      RatioAtLeast(spentMinor as real, limitMinor as real, 1.0);
      RatioAtLeast(spentMinor as real, limitMinor as real, 0.8);
      if spentMinor < limitMinor {
        NotExceeded(fl, spentMinor, limitMinor);
      } else {
        assert fl(1.0) <= fl(ratio);
      }
      if 5 * spentMinor < 4 * limitMinor {
        NotWarned(fl, spentMinor, limitMinor);
      } else {
        assert fl(0.8) <= fl(ratio);
      }
    }
  }

  /** The first budget of the category decides. */
  function DueAlert(budgets: seq<Budget>, categoryID: Id): Option<AlertType> {
    if budgets == [] then None
    else if budgets[0].categoryID == categoryID then AlertTypeFor(budgets[0].spentMinor, budgets[0].limitMinor)
    else DueAlert(budgets[1..], categoryID)
  }

  lemma {:induction false} DueAtFirst(budgets: seq<Budget>, categoryID: Id, i: nat)
    requires i <= |budgets| && forall k :: 0 <= k < i ==> budgets[k].categoryID != categoryID
    ensures DueAlert(budgets, categoryID)
         == if i == |budgets| then None else DueAlert(budgets[i..], categoryID)
  {
    if i > 0 {
      assert budgets[1..][i - 1..] == budgets[i..];
      DueAtFirst(budgets[1..], categoryID, i - 1);
    }
  }

  predicate Allowed(gate: Gate) {
    gate.NoGate? || (gate.Decided? && gate.send)
  }

  predicate ByEmail(gate: Gate) {
    gate.NoGate? || (gate.Decided? && gate.email)
  }

  /** Which of the outside calls fail. */
  datatype Faults = Faults(claim: bool, lookup: bool, send: bool, unclaim: bool)

  class AlertRepository {
    var marks: set<AlertKey>

    constructor (sent: set<AlertKey>)
      ensures marks == sent
    {
      marks := sent;
    }

    /** INSERT ... ON CONFLICT DO NOTHING: whether a row was written. */
    method TryInsertSentAlert(key: AlertKey, fails: bool) returns (r: Result<bool, ()>)
      modifies this
      ensures r == if fails then Err(()) else Ok(key !in old(marks))
      ensures marks == if fails then old(marks) else old(marks) + {key}
    {
      if fails {
        return Err(());
      }
      var inserted := key !in marks;
      marks := marks + {key};
      return Ok(inserted);
    }

    method DeleteSentAlert(key: AlertKey, fails: bool)
      modifies this
      ensures marks == if fails then old(marks) else old(marks) - {key}
    {
      if !fails {
        marks := marks - {key};
      }
    }

    /** One check from end to end: an email goes out only for an alert that is due, allowed and not yet
        marked; the mark stays unless the email failed and taking it back succeeded. */
    method CheckBudgetAndAlert(userID: Id, categoryID: Id, at: Instant, budgets: seq<Budget>, gate: Gate,
        faults: Faults)
      returns (emailed: bool)
      modifies this
      ensures
        var due := DueAlert(budgets, categoryID);
        if due.None? || !Allowed(gate) || faults.claim then marks == old(marks) && !emailed
        else
          var key := AlertKey(userID, categoryID, MonthIndexOf(at), due.value);
          var attempted := key !in old(marks) && ByEmail(gate) && !faults.lookup;
          && emailed == (attempted && !faults.send)
          && marks == if attempted && faults.send && !faults.unclaim then old(marks) else old(marks) + {key}
    {
      emailed := false;
      var target: Option<Budget> := None;
      var i := 0;
      while i < |budgets|
        invariant 0 <= i <= |budgets| && target == None
        invariant forall k :: 0 <= k < i ==> budgets[k].categoryID != categoryID
      {
        if budgets[i].categoryID == categoryID {
          target := Some(budgets[i]);
          break;
        }
        i := i + 1;
      }
      DueAtFirst(budgets, categoryID, i);
      if target == None {
        return;
      }
      var kind := AlertTypeFor(target.value.spentMinor, target.value.limitMinor);
      if kind == None {
        return;
      }
      var sendEmail := true;
      if gate != NoGate {
        if gate == Unreadable || !gate.send {
          return;
        }
        sendEmail := gate.email;
      }
      var key := AlertKey(userID, categoryID, MonthIndexOf(at), kind.value);
      var shouldSend := TryInsertSentAlert(key, faults.claim);
      if shouldSend.Err? || !shouldSend.value || !sendEmail {
        return;
      }
      if faults.lookup {
        return;
      }
      if faults.send {
        DeleteSentAlert(key, faults.unclaim);
      } else {
        emailed := true;
      }
    }
  }

  // ---------------------------------------------------------------- many checks at once

  type Sid = nat

  /** A check that has claimed its alert: about to send, or told that sending failed. */
  datatype Sender = Sender(key: AlertKey, failed: bool)

  /** The marks, the checks between claim and end, the emails whose sending succeeded, and the alerts
      whose claim ended with neither an email nor its mark taken back. */
  datatype System = System(
    marks: set<AlertKey>,
    senders: map<Sid, Sender>,
    delivered: seq<AlertKey>,
    abandoned: set<AlertKey>)

  datatype Step =
    | Claim(sid: Sid, key: AlertKey)
    | ClaimUnseen(key: AlertKey)
    | Leave(sid: Sid)
    | SendWorks(sid: Sid)
    | SendFails(sid: Sid)
    | Unclaim(sid: Sid)

  /** A claim whose reply is lost marks the alert but leads to no sending. Leaving covers a check that
      only records the alert, cannot find the address, cannot take its mark back, or crashes. */
  function Exec(sys: System, step: Step): System {
    match step
    case Claim(sid, key) =>
      if sid in sys.senders || key in sys.marks then sys
      else sys.(marks := sys.marks + {key}, senders := sys.senders[sid := Sender(key, false)])
    case ClaimUnseen(key) =>
      if key in sys.marks then sys
      else sys.(marks := sys.marks + {key}, abandoned := sys.abandoned + {key})
    case Leave(sid) =>
      if sid in sys.senders
      then sys.(senders := sys.senders - {sid}, abandoned := sys.abandoned + {sys.senders[sid].key})
      else sys
    case SendWorks(sid) =>
      if sid in sys.senders && !sys.senders[sid].failed
      then sys.(senders := sys.senders - {sid}, delivered := sys.delivered + [sys.senders[sid].key])
      else sys
    case SendFails(sid) =>
      if sid in sys.senders then sys.(senders := sys.senders[sid := sys.senders[sid].(failed := true)]) else sys
    case Unclaim(sid) =>
      if sid in sys.senders && sys.senders[sid].failed
      then sys.(marks := sys.marks - {sys.senders[sid].key}, senders := sys.senders - {sid})
      else sys
  }

  function ExecAll(sys: System, steps: seq<Step>): System {
    if steps == [] then sys else Exec(ExecAll(sys, steps[..|steps| - 1]), steps[|steps| - 1])
  }

  const START: System := System({}, map[], [], {})

  predicate OneSenderEach(senders: map<Sid, Sender>) {
    forall a, b :: a in senders && b in senders && a != b ==> senders[a].key != senders[b].key
  }

  predicate SendersMarked(sys: System) {
    forall sid :: sid in sys.senders ==> sys.senders[sid].key in sys.marks && sys.senders[sid].key !in sys.delivered
  }

  predicate DeliveredOnce(sys: System) {
    && (forall i, j :: 0 <= i < j < |sys.delivered| ==> sys.delivered[i] != sys.delivered[j])
    && (forall key :: key in sys.delivered ==> key in sys.marks)
  }

  predicate HasSender(senders: map<Sid, Sender>, key: AlertKey) {
    exists sid :: sid in senders && senders[sid].key == key
  }

  /** What a mark stands for: an email that went out, a check about to send it, or an abandoned claim. */
  predicate Accounted(sys: System, key: AlertKey) {
    && (key in sys.marks <==> key in sys.delivered || HasSender(sys.senders, key) || key in sys.abandoned)
    && !(key in sys.delivered && HasSender(sys.senders, key))
    && !(key in sys.delivered && key in sys.abandoned)
    && !(HasSender(sys.senders, key) && key in sys.abandoned)
  }

  predicate SystemOk(sys: System) {
    OneSenderEach(sys.senders) && SendersMarked(sys) && DeliveredOnce(sys)
  }

  lemma StepKeepsSystem(sys: System, step: Step)
    requires SystemOk(sys)
    ensures SystemOk(Exec(sys, step))
    ensures forall key :: key in sys.delivered ==> key in Exec(sys, step).delivered && key in Exec(sys, step).marks
  {
  }

  lemma {:induction false} ReachableIsOk(steps: seq<Step>)
    ensures SystemOk(ExecAll(START, steps))
  {
    if steps != [] {
      ReachableIsOk(steps[..|steps| - 1]);
      StepKeepsSystem(ExecAll(START, steps[..|steps| - 1]), steps[|steps| - 1]);
    }
  }

  /** In every interleaving an alert has at most one sender at a time and at most one email that
      succeeds, and while it is being sent it is marked and has not been delivered. */
  lemma AtMostOneEmail(steps: seq<Step>, i: nat, j: nat, a: Sid, b: Sid)
    ensures
      var sys := ExecAll(START, steps);
      && (i < j < |sys.delivered| ==> sys.delivered[i] != sys.delivered[j])
      && (a in sys.senders && b in sys.senders && a != b ==> sys.senders[a].key != sys.senders[b].key)
      && (a in sys.senders ==> sys.senders[a].key in sys.marks && sys.senders[a].key !in sys.delivered)
  {
    ReachableIsOk(steps);
  }

  lemma {:induction false} ExecAllAppend(sys: System, a: seq<Step>, b: seq<Step>)
    ensures ExecAll(sys, a + b) == ExecAll(ExecAll(sys, a), b)
  {
    if b == [] {
      assert a + b == a;
    } else {
      assert (a + b)[..|a + b| - 1] == a + b[..|b| - 1];
      ExecAllAppend(sys, a, b[..|b| - 1]);
    }
  }

  /** Once an email has succeeded its mark is never removed, whatever happens later. */
  lemma {:induction false} MarkStaysAfterSuccess(steps: seq<Step>, later: seq<Step>, key: AlertKey)
    requires key in ExecAll(START, steps).delivered
    ensures key in ExecAll(START, steps + later).marks && key in ExecAll(START, steps + later).delivered
  {
    if later == [] {
      assert steps + later == steps;
      ReachableIsOk(steps);
    } else {
      var front := later[..|later| - 1];
      assert (steps + later)[..|steps + later| - 1] == steps + front;
      MarkStaysAfterSuccess(steps, front, key);
      ReachableIsOk(steps + front);
      StepKeepsSystem(ExecAll(START, steps + front), later[|later| - 1]);
    }
  }

  /** A failed send whose mark is taken back makes the alert claimable again by any idle check. */
  lemma FailedSendIsRetried(steps: seq<Step>, sid: Sid, other: Sid)
    requires sid in ExecAll(START, steps).senders
    requires other != sid && other !in ExecAll(START, steps).senders
    ensures
      var key := ExecAll(START, steps).senders[sid].key;
      var sys := Exec(Exec(Exec(ExecAll(START, steps), SendFails(sid)), Unclaim(sid)), Claim(other, key));
      other in sys.senders && sys.senders[other] == Sender(key, false) && key in sys.marks
  {
  }

  // ---------------------------------------------------------------- alerts that are never sent

  lemma SenderAdded(senders: map<Sid, Sender>, sid: Sid, sender: Sender, key: AlertKey)
    requires sid in senders ==> senders[sid].key == sender.key
    ensures HasSender(senders[sid := sender], key) <==> HasSender(senders, key) || sender.key == key
  {
    var after := senders[sid := sender];
    if HasSender(senders, key) {
      var s :| s in senders && senders[s].key == key;
      assert s in after && after[s].key == key;
    } else if sender.key == key {
      assert sid in after && after[sid].key == key;
    }
  }

  lemma SenderRemoved(senders: map<Sid, Sender>, sid: Sid, key: AlertKey)
    requires OneSenderEach(senders) && sid in senders
    ensures HasSender(senders - {sid}, key) <==> HasSender(senders, key) && senders[sid].key != key
  {
    if HasSender(senders, key) && senders[sid].key != key {
      var s :| s in senders && senders[s].key == key;
      assert s in senders - {sid};
    }
  }

  lemma StepAccounts(sys: System, step: Step, key: AlertKey)
    requires SystemOk(sys) && Accounted(sys, key)
    ensures Accounted(Exec(sys, step), key)
    ensures key in sys.abandoned ==> key in Exec(sys, step).abandoned
  {
    if step.Claim? && step.sid !in sys.senders {
      SenderAdded(sys.senders, step.sid, Sender(step.key, false), key);
    } else if step.SendFails? && step.sid in sys.senders {
      SenderAdded(sys.senders, step.sid, sys.senders[step.sid].(failed := true), key);
    } else if !step.ClaimUnseen? && step.sid in sys.senders {
      SenderRemoved(sys.senders, step.sid, key);
    }
  }

  /** In every reachable state an alert is marked exactly when its email went out, a check is about to
      send it, or its claim was abandoned, and only one of the three is the case. */
  lemma {:induction false} MarkIsAccounted(steps: seq<Step>, key: AlertKey)
    ensures Accounted(ExecAll(START, steps), key)
  {
    if steps != [] {
      MarkIsAccounted(steps[..|steps| - 1], key);
      ReachableIsOk(steps[..|steps| - 1]);
      StepAccounts(ExecAll(START, steps[..|steps| - 1]), steps[|steps| - 1], key);
    }
  }

  /** A claim that ends is delivered or claimable again exactly when it ends in a send that works or in
      taking the mark back. */
  lemma {:induction false} ClaimEnds(steps: seq<Step>, sid: Sid, step: Step)
    requires sid in ExecAll(START, steps).senders && sid !in Exec(ExecAll(START, steps), step).senders
    ensures
      var key := ExecAll(START, steps).senders[sid].key;
      var sys' := Exec(ExecAll(START, steps), step);
      && (key in sys'.delivered || key !in sys'.marks <==> step.SendWorks? || step.Unclaim?)
      && (key in sys'.abandoned <==> step.Leave?)
  {
    ReachableIsOk(steps);
    MarkIsAccounted(steps, ExecAll(START, steps).senders[sid].key);
    MarkIsAccounted(steps + [step], ExecAll(START, steps).senders[sid].key);
    assert (steps + [step])[..|steps|] == steps;
  }

  lemma {:induction false} AbandonedStays(steps: seq<Step>, later: seq<Step>, key: AlertKey)
    requires key in ExecAll(START, steps).abandoned
    ensures key in ExecAll(START, steps + later).abandoned
  {
    if later == [] {
      assert steps + later == steps;
    } else {
      var front := later[..|later| - 1];
      assert (steps + later)[..|steps + later| - 1] == steps + front;
      AbandonedStays(steps, front, key);
      ReachableIsOk(steps + front);
      MarkIsAccounted(steps + front, key);
      StepAccounts(ExecAll(START, steps + front), later[|later| - 1], key);
    }
  }

  /** An abandoned alert stays marked whatever happens later: it is never delivered, and no check can
      claim it again. */
  lemma {:induction false} OrphanedMarkStays(steps: seq<Step>, later: seq<Step>, key: AlertKey, sid: Sid)
    requires key in ExecAll(START, steps).abandoned
    ensures
      var sys := ExecAll(START, steps + later);
      key in sys.marks && key !in sys.delivered && Exec(sys, Claim(sid, key)) == sys
  {
    AbandonedStays(steps, later, key);
    MarkIsAccounted(steps + later, key);
  }

  /** The input: a check claims an alert and leaves without sending it, which loses the alert. */
  lemma {:induction false} LeavingOrphans(sid: Sid, key: AlertKey, later: seq<Step>)
    ensures key !in ExecAll(START, [Claim(sid, key), Leave(sid)] + later).delivered
    ensures key in ExecAll(START, [Claim(sid, key), Leave(sid)] + later).marks
  {
    var steps := [Claim(sid, key), Leave(sid)];
    assert steps[..1] == [Claim(sid, key)] && steps[..1][..0] == [];
    assert ExecAll(START, steps[..1]) == Exec(START, Claim(sid, key));
    OrphanedMarkStays(steps, later, key, sid);
  }

  lemma FreshSid(senders: map<Sid, Sender>) returns (sid: Sid)
    ensures sid !in senders
  {
    sid := 0;
    var below: set<Sid> := {};
    while sid in senders
      invariant below <= senders.Keys && forall s: Sid :: s in below <==> s < sid
      decreases senders.Keys - below
    {
      below := below + {sid};
      sid := sid + 1;
    }
  }

  lemma OneMore(sys: System, a: Step)
    ensures ExecAll(sys, [a]) == Exec(sys, a)
  {
    assert [a][..0] == [];
  }

  lemma TwoMore(sys: System, a: Step, b: Step)
    ensures ExecAll(sys, [a, b]) == Exec(Exec(sys, a), b)
  {
    assert [a, b][..1] == [a];
    OneMore(sys, a);
  }

  /** A claimed alert that is not abandoned can still be delivered: its check sends it, or takes the mark
      back so that another check does. */
  lemma {:induction false} SenderCanDeliver(steps: seq<Step>, sid: Sid) returns (later: seq<Step>)
    requires sid in ExecAll(START, steps).senders
    ensures ExecAll(START, steps).senders[sid].key in ExecAll(START, steps + later).delivered
  {
    var sys := ExecAll(START, steps);
    var key := sys.senders[sid].key;
    ReachableIsOk(steps);
    if sys.senders[sid].failed {
      var retry := [Claim(sid, key), SendWorks(sid)];
      later := [Unclaim(sid)] + retry;
      ExecAllAppend(sys, [Unclaim(sid)], retry);
      OneMore(sys, Unclaim(sid));
      TwoMore(Exec(sys, Unclaim(sid)), Claim(sid, key), SendWorks(sid));
    } else {
      later := [SendWorks(sid)];
      OneMore(sys, SendWorks(sid));
    }
    ExecAllAppend(START, steps, later);
  }

  lemma {:induction false} UnmarkedCanDeliver(steps: seq<Step>, key: AlertKey) returns (later: seq<Step>)
    requires key !in ExecAll(START, steps).marks
    ensures key in ExecAll(START, steps + later).delivered
  {
    var sys := ExecAll(START, steps);
    var sid := FreshSid(sys.senders);
    later := [Claim(sid, key), SendWorks(sid)];
    TwoMore(sys, Claim(sid, key), SendWorks(sid));
    ExecAllAppend(START, steps, later);
  }

  ghost predicate NeverDelivered(steps: seq<Step>, key: AlertKey) {
    forall later: seq<Step> :: key !in ExecAll(START, steps + later).delivered
  }

  /** After any run, an alert can no longer be delivered by any continuation exactly when a claim of it
      was abandoned. */
  lemma {:induction false} NeverDeliveredIff(steps: seq<Step>, key: AlertKey)
    ensures NeverDelivered(steps, key) <==> key in ExecAll(START, steps).abandoned
  {
    var sys := ExecAll(START, steps);
    MarkIsAccounted(steps, key);
    if key in sys.abandoned {
      forall later: seq<Step> ensures key !in ExecAll(START, steps + later).delivered {
        OrphanedMarkStays(steps, later, key, 0);
      }
    } else if key in sys.delivered {
      assert key in ExecAll(START, steps + []).delivered by { assert steps + [] == steps; }
    } else if HasSender(sys.senders, key) {
      var sid :| sid in sys.senders && sys.senders[sid].key == key;
      var later := SenderCanDeliver(steps, sid);
      assert key in ExecAll(START, steps + later).delivered;
    } else {
      var later := UnmarkedCanDeliver(steps, key);
      assert key in ExecAll(START, steps + later).delivered;
    }
  }
}
