/** The request with everything that can wake it, the report protocol and the issuer's reconciles in one system:
    what has become of the report of a request that sleeps after reporting an error.

    The request's worker stores its error while it reconciles, then adds the issuer to the queue, and then acts;
    it is reporter 0 of the protocol. An issuer worker that loaded a report acts on it with whatever it reads,
    and its patch may be lost. Issuer reconciles without a report are among the edits of the issuer.
 */
module ReportedSleep {
  import opened Conditions
  import opened IssuerTypes
  import opened Reports
  import opened RequestController
  import opened Requests
  import opened Resting
  import opened SignerErrors
  import IssuerController
  import ReportProtocol
  import Wakeups

  /** What became of a report that was loaded. */
  datatype Aftermath =
    | Unused                     // the reconcile that loaded it did not use it
    | PatchLost                  // it was used, but the patch was lost or the issuer was gone
    | Applied(version: nat)      // it was used, and its patch made this version of the issuer
    | Elsewhere                  // it was about another issuer

  /** The report that the request's current reconcile has stored. */
  datatype Mine = Mine(id: nat, key: IssuerKey, err: Error)

  type Hand = map<nat, ReportProtocol.Report>

  datatype State = State(
    wake: Wakeups.State,
    proto: ReportProtocol.State,
    hand: Hand,                             // the loaded reports that workers have yet to act on
    aftermath: map<nat, Aftermath>,         // of the loaded reports that were acted on, by id
    mine: Option<Mine>)

  datatype Step =
    | OfRequest(wakeStep: Wakeups.Step)
    | Report(key: IssuerKey, err: Error)
    | OfProtocol(protoStep: ReportProtocol.Step)
    | ActOnReport(worker: nat, inputs: IssuerController.Inputs, lost: bool, dropped: set<ConditionType>)

  ghost predicate Init(s: State) {
    && Wakeups.Init(s.wake) && Wakeups.Shape(s.wake) && s.proto == ReportProtocol.INITIAL
    && s.hand == map[] && s.aftermath == map[] && s.mine.None?
  }

  /** The request acts as its report says: it has stored and queued exactly the error that it reports. */
  ghost predicate ActsAsReported(c: Wakeups.Config, s: State, i: Inputs) {
    match c.plan(i).exit
    case Reported(key, err) =>
      s.mine.Some? && s.mine.value.key == key && s.mine.value.err == err && 0 !in s.proto.reporters
    case _ => s.mine.None?
  }

  ghost predicate Allowed(c: Wakeups.Config, s: State, step: Step)
    requires Wakeups.Shape(s.wake)
  {
    match step
    case OfRequest(st) => Wakeups.Allowed(s.wake, st) && (st.DoAct? ==> ActsAsReported(c, s, st.inputs))
    case Report(_, _) => s.wake.stage == Wakeups.HasIssuer && s.mine.None? && 0 !in s.proto.reporters
    case OfProtocol(st) =>
      && ReportProtocol.Enabled(s.proto, st)
      && (st.Store? ==> st.reporter != 0)
      && (st.Finish? ==> st.worker !in s.hand)
    case ActOnReport(w, _, _, _) => w in s.hand && w in s.proto.workers
  }

  /** The report is about the issuer of the request. */
  predicate IsOurs(c: Wakeups.Config, s: State, key: IssuerKey) {
    s.wake.log != [] && MatchIssuerType(c.types, s.wake.log[0]) == Some(key)
  }

  function LatestIssuer(s: State): Option<Issuer> {
    if s.wake.issuers == [] then None else s.wake.issuers[|s.wake.issuers| - 1]
  }

  /** The patch of a reconcile that uses the report reaches the issuer. */
  predicate Reaches(c: Wakeups.Config, s: State, step: Step)
    requires step.ActOnReport? && step.worker in s.proto.workers
  {
    IsOurs(c, s, s.proto.workers[step.worker].key) && UsesReport(step.inputs) && !step.lost && LatestIssuer(s).Some?
  }

  /** What a worker's act makes of its report. */
  ghost function Verdict(c: Wakeups.Config, s: State, step: Step): Aftermath
    requires step.ActOnReport? && step.worker in s.proto.workers
  {
    if Reaches(c, s, step) then Applied(|s.wake.issuers|)
    else if !IsOurs(c, s, s.proto.workers[step.worker].key) then Elsewhere
    else if !UsesReport(step.inputs) then Unused
    else PatchLost
  }

  /** The hands after a step of the protocol. */
  function HandAfter(p: ReportProtocol.State, hand: Hand, st: ReportProtocol.Step): Hand
    requires ReportProtocol.Enabled(p, st)
  {
    if st.LoadAndDelete? && p.workers[st.worker].key in p.store
    then hand[st.worker := p.store[p.workers[st.worker].key]] else hand
  }

  ghost function AfterReport(s: State, step: Step): Option<Issuer>
    requires step.ActOnReport? && step.worker in s.hand && LatestIssuer(s).Some? && UsesReport(step.inputs)
  {
    var o := IssuerController.Plan(step.inputs, Some(s.hand[step.worker].err));
    Some(Updated(LatestIssuer(s).value, if o.patch.Some? then o.patch.value else [], step.dropped))
  }

  /** One more version of the issuer: see IssuerVersion. */
  function WithIssuer(w: Wakeups.State, issuer: Option<Issuer>): Wakeups.State {
    w.(issuers := w.issuers + [issuer])
  }

  /** The request's side after a worker acted on a report. */
  ghost function WakeAfter(c: Wakeups.Config, s: State, step: Step): Wakeups.State
    requires step.ActOnReport? && step.worker in s.hand && step.worker in s.proto.workers
  {
    if Reaches(c, s, step) then WithIssuer(s.wake, AfterReport(s, step)) else s.wake
  }

  ghost function Next(c: Wakeups.Config, s: State, step: Step): State
    requires Wakeups.Shape(s.wake) && Allowed(c, s, step)
  {
    match step
    case OfRequest(st) =>
      s.(wake := Wakeups.Next(c, s.wake, st), mine := if st.Begin? then None else s.mine)
    case Report(key, err) =>
      s.(proto := ReportProtocol.Next(s.proto, ReportProtocol.Store(0, key, err)),
         mine := Some(Mine(|s.proto.fates|, key, err)))
    case OfProtocol(st) =>
      s.(proto := ReportProtocol.Next(s.proto, st), hand := HandAfter(s.proto, s.hand, st))
    case ActOnReport(w, _, _, _) =>
      s.(wake := WakeAfter(c, s, step),
         hand := s.hand - {w},
         aftermath := s.aftermath[s.hand[w].id := Verdict(c, s, step)])
  }

  ghost predicate Run(c: Wakeups.Config, s: State, steps: seq<Step>, t: State)
    decreases steps
  {
    && Wakeups.Shape(s.wake)
    && if steps == [] then s == t
       else Allowed(c, s, steps[0]) && Run(c, Next(c, s, steps[0]), steps[1..], t)
  }

  /*** The invariant ***/

  ghost predicate ProtoInv(p: ReportProtocol.State) {
    ReportProtocol.QueueInv(p) && ReportProtocol.PendingInv(p) && ReportProtocol.LedgerInv(p)
  }

  ghost predicate WasConsumed(p: ReportProtocol.State, id: nat) {
    id < |p.fates| && p.fates[id] == ReportProtocol.Consumed
  }

  /** What workers have in hand was loaded by them. */
  ghost predicate HeldInv(p: ReportProtocol.State, hand: Hand) {
    forall w :: w in hand ==> w in p.workers && p.workers[w].Working? && WasConsumed(p, hand[w].id)
  }

  /** Every loaded report is in hand or was acted on. */
  ghost predicate LoadedInv(p: ReportProtocol.State, hand: Hand, acted: set<nat>) {
    && (forall id :: id in acted ==> WasConsumed(p, id))
    && (forall id: nat :: WasConsumed(p, id) ==> id in acted || InHand(hand, id))
  }

  ghost predicate InHand(hand: Hand, id: nat) {
    exists w :: w in hand && hand[w].id == id
  }

  ghost predicate AppliedInv(aftermath: map<nat, Aftermath>, issuers: seq<Option<Issuer>>) {
    forall id :: id in aftermath && aftermath[id].Applied? ==> IsReportVersion(issuers, aftermath[id].version)
  }

  ghost predicate IsReportVersion(issuers: seq<Option<Issuer>>, k: int) {
    0 < k < |issuers| && Wakeups.ReportApplied(issuers[k - 1], issuers[k])
  }

  /** While the request's report is stored, it is the one stored for its issuer. */
  ghost predicate MineStored(p: ReportProtocol.State, m: Mine) {
    && m.id < |p.fates|
    && (p.fates[m.id].Stored? ==>
          p.fates[m.id].key == m.key && m.key in p.store && p.store[m.key] == ReportProtocol.Report(m.id, m.err))
  }

  /** The worker that loaded it works on that issuer. */
  ghost predicate MineHeld(p: ReportProtocol.State, hand: Hand, m: Mine) {
    forall w :: w in hand && w in p.workers && hand[w].id == m.id ==> p.workers[w].key == m.key
  }

  /** If it is applied, that is after the request read the issuer. */
  ghost predicate MineApplied(aftermath: map<nat, Aftermath>, ours: bool, seen: nat, m: Mine) {
    m.id in aftermath ==>
      match aftermath[m.id]
      case Applied(k) => seen < k
      case Elsewhere => !ours
      case _ => true
  }

  /** What is known about the request's own report. */
  ghost predicate MineInv(c: Wakeups.Config, s: State) {
    s.mine.Some? ==>
      && !s.wake.stage.Started? && !s.wake.stage.HasRequest?
      && MineStored(s.proto, s.mine.value)
      && MineHeld(s.proto, s.hand, s.mine.value)
      && MineApplied(s.aftermath, IsOurs(c, s, s.mine.value.key), s.wake.issuerSeen, s.mine.value)
  }

  /** The last reconcile's report is the one it stored. */
  ghost predicate ReportInv(w: Wakeups.State, mine: Option<Mine>) {
    w.act.Some? && w.act.value.outcome.exit.Reported? ==>
      var exit := w.act.value.outcome.exit;
      mine.Some? && mine.value.key == exit.key && mine.value.err == exit.err
  }

  ghost predicate Inv(c: Wakeups.Config, s: State) {
    && Wakeups.Inv(c, s.wake) && ProtoInv(s.proto)
    && HeldInv(s.proto, s.hand) && LoadedInv(s.proto, s.hand, s.aftermath.Keys)
    && AppliedInv(s.aftermath, s.wake.issuers) && MineInv(c, s) && ReportInv(s.wake, s.mine)
  }

  /*** Steps of the request ***/

  lemma {:induction false} WakeStep(c: Wakeups.Config, w: Wakeups.State, st: Wakeups.Step)
    requires Wakeups.Shape(w) && Wakeups.Allowed(w, st)
    ensures var n := Wakeups.Next(c, w, st);
            && w.issuers <= n.issuers && n.log != [] && n.log[0] == w.log[0]
            && (!st.Begin? && !w.stage.Started? && !w.stage.HasRequest? ==>
                  !n.stage.Started? && !n.stage.HasRequest? && n.issuerSeen == w.issuerSeen)
            && (st.Begin? ==> n.act.None?)
            && (!st.Begin? && !st.DoAct? ==> n.act == w.act)
            && (st.DoAct? ==> n.act.Some? && n.act.value.outcome == c.plan(st.inputs))
  {
  }

  lemma {:induction false} AppliedStays(
    aftermath: map<nat, Aftermath>, issuers: seq<Option<Issuer>>, longer: seq<Option<Issuer>>)
    requires AppliedInv(aftermath, issuers) && issuers <= longer
    ensures AppliedInv(aftermath, longer)
  {
    forall k | IsReportVersion(issuers, k) ensures IsReportVersion(longer, k) {
      assert longer[k] == issuers[k] && longer[k - 1] == issuers[k - 1];
    }
  }

  lemma {:induction false} RequestStep(c: Wakeups.Config, s: State, st: Wakeups.Step)
    requires Wakeups.SoundPatches(c) && Inv(c, s) && Allowed(c, s, OfRequest(st))
    ensures Inv(c, Next(c, s, OfRequest(st)))
  {
    var t := Next(c, s, OfRequest(st));
    Wakeups.InvStep(c, s.wake, st);
    WakeStep(c, s.wake, st);
    AppliedStays(s.aftermath, s.wake.issuers, t.wake.issuers);
    assert s.mine.Some? ==> IsOurs(c, t, s.mine.value.key) == IsOurs(c, s, s.mine.value.key);
  }

  /*** Steps of the protocol ***/

  lemma {:induction false} ProtoStep(p: ReportProtocol.State, st: ReportProtocol.Step)
    requires ProtoInv(p) && ReportProtocol.Enabled(p, st)
    ensures ProtoInv(ReportProtocol.Next(p, st)) && ReportProtocol.FatesOnlySettle(p, ReportProtocol.Next(p, st))
  {
    ReportProtocol.QueueStep(p, st);
    ReportProtocol.PendingStep(p, st);
    ReportProtocol.LedgerStep(p, st);
  }

  /** Only a load consumes a report, and it consumes the one it loads. */
  lemma {:induction false} ConsumedByLoad(p: ReportProtocol.State, st: ReportProtocol.Step, id: nat)
    requires ReportProtocol.LedgerInv(p) && ReportProtocol.Enabled(p, st)
    ensures WasConsumed(ReportProtocol.Next(p, st), id)
            <==> || WasConsumed(p, id)
                 || (st.LoadAndDelete? && p.workers[st.worker].key in p.store
                     && p.store[p.workers[st.worker].key].id == id)
  {
  }

  /** A working worker goes on working until it is done. */
  lemma {:induction false} WorkersStay(p: ReportProtocol.State, st: ReportProtocol.Step, w: nat)
    requires ReportProtocol.Enabled(p, st) && w in p.workers && p.workers[w].Working? && !(st.Finish? && st.worker == w)
    ensures var q := ReportProtocol.Next(p, st); w in q.workers && q.workers[w] == p.workers[w]
  {
  }

  lemma {:induction false} HeldStep(p: ReportProtocol.State, hand: Hand, st: ReportProtocol.Step)
    requires ProtoInv(p) && HeldInv(p, hand) && ReportProtocol.Enabled(p, st) && (st.Finish? ==> st.worker !in hand)
    ensures HeldInv(ReportProtocol.Next(p, st), HandAfter(p, hand, st))
  {
    var q, after := ReportProtocol.Next(p, st), HandAfter(p, hand, st);
    forall w | w in after ensures w in q.workers && q.workers[w].Working? && WasConsumed(q, after[w].id) {
      ConsumedByLoad(p, st, after[w].id);
      if w in hand {
        WorkersStay(p, st, w);
      }
    }
  }

  lemma {:induction false} LoadedStep(p: ReportProtocol.State, hand: Hand, acted: set<nat>, st: ReportProtocol.Step)
    requires ProtoInv(p) && HeldInv(p, hand) && LoadedInv(p, hand, acted) && ReportProtocol.Enabled(p, st)
    ensures LoadedInv(ReportProtocol.Next(p, st), HandAfter(p, hand, st), acted)
  {
    var q, after := ReportProtocol.Next(p, st), HandAfter(p, hand, st);
    forall id | id in acted ensures WasConsumed(q, id) {
      ConsumedByLoad(p, st, id);
    }
    forall id: nat | WasConsumed(q, id) ensures id in acted || InHand(after, id) {
      ConsumedByLoad(p, st, id);
      if !WasConsumed(p, id) {
        assert st.worker in after && after[st.worker].id == id;
      } else if InHand(hand, id) {
        StaysInHand(p, hand, st, id);
      }
    }
  }

  lemma {:induction false} StaysInHand(p: ReportProtocol.State, hand: Hand, st: ReportProtocol.Step, id: nat)
    requires HeldInv(p, hand) && ReportProtocol.Enabled(p, st) && InHand(hand, id)
    ensures InHand(HandAfter(p, hand, st), id)
  {
    var w :| w in hand && hand[w].id == id;
    assert w in HandAfter(p, hand, st) && HandAfter(p, hand, st)[w] == hand[w];
  }

  lemma {:induction false} MineStoredStep(p: ReportProtocol.State, st: ReportProtocol.Step, m: Mine)
    requires ReportProtocol.LedgerInv(p) && MineStored(p, m) && ReportProtocol.Enabled(p, st)
    ensures MineStored(ReportProtocol.Next(p, st), m)
  {
  }

  lemma {:induction false} MineHeldStep(p: ReportProtocol.State, hand: Hand, st: ReportProtocol.Step, m: Mine)
    requires ProtoInv(p) && HeldInv(p, hand) && MineStored(p, m) && MineHeld(p, hand, m)
    requires ReportProtocol.Enabled(p, st) && (st.Finish? ==> st.worker !in hand)
    ensures MineHeld(ReportProtocol.Next(p, st), HandAfter(p, hand, st), m)
  {
    var q, after := ReportProtocol.Next(p, st), HandAfter(p, hand, st);
    forall w | w in after && w in q.workers && after[w].id == m.id ensures q.workers[w].key == m.key {
      if w in hand {
        WorkersStay(p, st, w);
      }
    }
  }

  lemma {:induction false} ReportStep(c: Wakeups.Config, s: State, key: IssuerKey, err: Error)
    requires Inv(c, s) && Allowed(c, s, Report(key, err))
    ensures Inv(c, Next(c, s, Report(key, err)))
  {
    var st := ReportProtocol.Store(0, key, err);
    ProtoStep(s.proto, st);
    HeldStep(s.proto, s.hand, st);
    LoadedStep(s.proto, s.hand, s.aftermath.Keys, st);
    FreshReport(s.proto, s.hand, s.aftermath, key, err);
  }

  lemma {:induction false} FreshReport(
    p: ReportProtocol.State, hand: Hand, aftermath: map<nat, Aftermath>, key: IssuerKey, err: Error)
    requires HeldInv(p, hand) && LoadedInv(p, hand, aftermath.Keys)
    requires ReportProtocol.Enabled(p, ReportProtocol.Store(0, key, err))
    ensures var q, m := ReportProtocol.Next(p, ReportProtocol.Store(0, key, err)), Mine(|p.fates|, key, err);
            MineStored(q, m) && MineHeld(q, hand, m) && m.id !in aftermath
  {
  }

  lemma {:induction false} ProtocolStep(c: Wakeups.Config, s: State, st: ReportProtocol.Step)
    requires Inv(c, s) && Allowed(c, s, OfProtocol(st))
    ensures Inv(c, Next(c, s, OfProtocol(st)))
  {
    ProtoStep(s.proto, st);
    HeldStep(s.proto, s.hand, st);
    LoadedStep(s.proto, s.hand, s.aftermath.Keys, st);
    if s.mine.Some? {
      MineStoredStep(s.proto, st, s.mine.value);
      MineHeldStep(s.proto, s.hand, st, s.mine.value);
    }
  }

  /*** Acting on a report ***/

  lemma {:induction false} UsedReportIsApplied(s: State, step: Step)
    requires step.ActOnReport? && step.worker in s.hand && LatestIssuer(s).Some? && UsesReport(step.inputs)
    ensures Wakeups.ReportApplied(LatestIssuer(s), AfterReport(s, step))
  {
    ReportDecidesExactly(step.inputs, s.hand[step.worker].err);
  }

  lemma {:induction false} ActedOnHand(p: ReportProtocol.State, hand: Hand, acted: set<nat>, w: nat)
    requires HeldInv(p, hand) && LoadedInv(p, hand, acted) && w in hand
    ensures HeldInv(p, hand - {w}) && LoadedInv(p, hand - {w}, acted + {hand[w].id})
  {
    forall id: nat | WasConsumed(p, id) && id !in acted && id != hand[w].id ensures InHand(hand - {w}, id) {
      var v :| v in hand && hand[v].id == id;
      assert v in hand - {w};
    }
  }

  lemma {:induction false} MineActed(c: Wakeups.Config, s: State, step: Step)
    requires Inv(c, s) && step.ActOnReport? && Allowed(c, s, step) && s.mine.Some?
    ensures MineApplied(s.aftermath[s.hand[step.worker].id := Verdict(c, s, step)],
                        IsOurs(c, s, s.mine.value.key), s.wake.issuerSeen, s.mine.value)
  {
    var m, w := s.mine.value, step.worker;
    if s.hand[w].id == m.id {
      assert s.proto.workers[w].key == m.key;
    }
  }

  lemma {:induction false} VerdictIsTrue(c: Wakeups.Config, s: State, step: Step, issuers: seq<Option<Issuer>>)
    requires AppliedInv(s.aftermath, s.wake.issuers) && step.ActOnReport? && step.worker in s.hand
    requires step.worker in s.proto.workers
    requires if Reaches(c, s, step) then issuers == s.wake.issuers + [AfterReport(s, step)]
             else issuers == s.wake.issuers
    ensures AppliedInv(s.aftermath[s.hand[step.worker].id := Verdict(c, s, step)], issuers)
  {
    AppliedStays(s.aftermath, s.wake.issuers, issuers);
    if Reaches(c, s, step) {
      UsedReportIsApplied(s, step);
      assert IsReportVersion(issuers, |s.wake.issuers|);
    }
  }

  lemma {:induction false} ReportKeepsGeneration(s: State, step: Step)
    requires step.ActOnReport? && step.worker in s.hand && LatestIssuer(s).Some? && UsesReport(step.inputs)
    ensures Rises(LatestIssuer(s), AfterReport(s, step))
  {
  }

  /** For the request, the patch of an issuer's reconcile is an edit of the issuer. */
  lemma {:induction false} IssuerVersion(c: Wakeups.Config, w: Wakeups.State, issuer: Option<Issuer>)
    requires Wakeups.SoundPatches(c) && Wakeups.Inv(c, w) && Rises(w.issuers[|w.issuers| - 1], issuer)
    ensures Wakeups.Allowed(w, Wakeups.EditIssuer(issuer))
    ensures WithIssuer(w, issuer) == Wakeups.Next(c, w, Wakeups.EditIssuer(issuer))
    ensures Wakeups.Inv(c, WithIssuer(w, issuer))
  {
    Wakeups.InvStep(c, w, Wakeups.EditIssuer(issuer));
  }

  lemma {:induction false} WakeAfterAct(c: Wakeups.Config, s: State, step: Step)
    requires Wakeups.SoundPatches(c) && Wakeups.Inv(c, s.wake)
    requires step.ActOnReport? && step.worker in s.hand && step.worker in s.proto.workers
    ensures var w := WakeAfter(c, s, step);
            && Wakeups.Inv(c, w) && w == s.wake.(issuers := w.issuers)
            && w.issuers == if Reaches(c, s, step) then s.wake.issuers + [AfterReport(s, step)] else s.wake.issuers
  {
    if Reaches(c, s, step) {
      ReportKeepsGeneration(s, step);
      IssuerVersion(c, s.wake, AfterReport(s, step));
    }
  }

  lemma {:induction false} ActKeepsInv(c: Wakeups.Config, s: State, t: State, w: nat, verdict: Aftermath)
    requires Inv(c, s) && w in s.hand && Wakeups.Inv(c, t.wake) && t.wake == s.wake.(issuers := t.wake.issuers)
    requires t == s.(wake := t.wake, hand := s.hand - {w}, aftermath := s.aftermath[s.hand[w].id := verdict])
    requires AppliedInv(t.aftermath, t.wake.issuers)
    requires s.mine.Some? ==>
               MineApplied(t.aftermath, IsOurs(c, s, s.mine.value.key), s.wake.issuerSeen, s.mine.value)
    ensures Inv(c, t)
  {
    ActedOnHand(s.proto, s.hand, s.aftermath.Keys, w);
    assert t.aftermath.Keys == s.aftermath.Keys + {s.hand[w].id};
    assert s.mine.Some? ==> IsOurs(c, t, s.mine.value.key) == IsOurs(c, s, s.mine.value.key);
  }

  lemma {:induction false} ActStep(c: Wakeups.Config, s: State, step: Step)
    requires Wakeups.SoundPatches(c) && Inv(c, s) && step.ActOnReport? && Allowed(c, s, step)
    ensures Inv(c, Next(c, s, step))
  {
    var t := Next(c, s, step);
    WakeAfterAct(c, s, step);
    VerdictIsTrue(c, s, step, t.wake.issuers);
    if s.mine.Some? {
      MineActed(c, s, step);
    }
    ActKeepsInv(c, s, t, step.worker, Verdict(c, s, step));
  }

  lemma {:induction false} InvStep(c: Wakeups.Config, s: State, step: Step)
    requires Wakeups.SoundPatches(c) && Inv(c, s) && Allowed(c, s, step)
    ensures Inv(c, Next(c, s, step))
  {
    match step
    case OfRequest(st) => RequestStep(c, s, st);
    case Report(key, err) => ReportStep(c, s, key, err);
    case OfProtocol(st) => ProtocolStep(c, s, st);
    case ActOnReport(_, _, _, _) => ActStep(c, s, step);
  }

  lemma {:induction false} InvRun(c: Wakeups.Config, s: State, steps: seq<Step>, t: State)
    requires Wakeups.SoundPatches(c) && Inv(c, s) && Run(c, s, steps, t)
    ensures Inv(c, t)
    decreases steps
  {
    if steps != [] {
      InvStep(c, s, steps[0]);
      InvRun(c, Next(c, s, steps[0]), steps[1..], t);
    }
  }

  lemma {:induction false} InitInv(c: Wakeups.Config, s: State)
    requires Init(s)
    ensures Inv(c, s)
  {
    Wakeups.InitInv(c, s.wake);
  }

  /*** The theorem ***/

  /** Where the report of a sleeping request may be: stored for its issuer, with somebody due to read it;
      overwritten by a later one; in the hand of a worker; or acted on without reaching the issuer. */
  ghost predicate Accounted(s: State, m: Mine) {
    && m.id < |s.proto.fates|
    && match s.proto.fates[m.id]
       case Stored(key) =>
         key == m.key && key in s.proto.store && s.proto.store[key] == ReportProtocol.Report(m.id, m.err)
         && ReportProtocol.Due(s.proto, key)
       case Overwritten => true
       case Consumed => InHand(s.hand, m.id) || (m.id in s.aftermath && s.aftermath[m.id] in {Unused, PatchLost})
  }

  /** A request that sleeps after reporting an error, with no wake-up under way and no list call failed, has its
      report accounted for: it has not been applied to the issuer. */
  lemma {:induction false} SleepingReporterIsAccounted(
    settings: Settings, consumers: set<GroupVersionKind>, s: State, steps: seq<Step>, t: State)
    requires Init(s) && Run(Wakeups.ConfigOf(settings, consumers), s, steps, t)
    requires Wakeups.Shape(t.wake) && Wakeups.Asleep(t.wake) && Wakeups.NothingComing(t.wake) && !t.wake.missed
    requires t.wake.act.Some? && t.wake.act.value.outcome.exit.Reported?
    ensures var exit := t.wake.act.value.outcome.exit;
            t.mine.Some? && t.mine.value.key == exit.key && t.mine.value.err == exit.err && Accounted(t, t.mine.value)
  {
    var c := Wakeups.ConfigOf(settings, consumers);
    Wakeups.PlansAreSound(settings, consumers);
    InitInv(c, s);
    InvRun(c, s, steps, t);
    AccountedAsleep(settings, consumers, c, t);
  }

  lemma {:induction false} AccountedAsleep(
    settings: Settings, consumers: set<GroupVersionKind>, c: Wakeups.Config, t: State)
    requires Wakeups.Decides(c, settings, consumers) && Inv(c, t)
    requires Wakeups.Asleep(t.wake) && Wakeups.NothingComing(t.wake) && !t.wake.missed
    requires t.wake.act.Some? && t.wake.act.value.outcome.exit.Reported?
    ensures t.mine.Some? && Accounted(t, t.mine.value)
  {
    var m := t.mine.value;
    Wakeups.NoReportAppliedAsleep(settings, consumers, c, t.wake);
    ReporterIsOurs(settings, consumers, c, t);
    if t.proto.fates[m.id].Stored? {
      ReportProtocol.StoredIsDue(t.proto, m.key);
    } else if t.proto.fates[m.id].Consumed? {
      assert WasConsumed(t.proto, m.id);
      if m.id in t.aftermath && t.aftermath[m.id].Applied? {
        assert IsReportVersion(t.wake.issuers, t.aftermath[m.id].version);
      }
    }
  }

  /** The report is about the issuer that the request refers to. */
  lemma {:induction false} ReporterIsOurs(
    settings: Settings, consumers: set<GroupVersionKind>, c: Wakeups.Config, t: State)
    requires Wakeups.Decides(c, settings, consumers) && Inv(c, t)
    requires t.wake.act.Some? && t.wake.act.value.outcome.exit.Reported?
    ensures t.mine.Some? && IsOurs(c, t, t.mine.value.key)
  {
    var a, w := t.wake.act.value, t.wake;
    assert a.outcome == c.plan(a.inputs) == Plan(settings, consumers, a.inputs);
    Wakeups.ReporterSawReady(settings, consumers, a.inputs);
    assert Wakeups.SameReference(w.log[0], w.log[w.seen - 1]);
    ReportedKey(settings, consumers, a.inputs);
  }

  lemma {:induction false} ReportedKey(settings: Settings, consumers: set<GroupVersionKind>, i: Inputs)
    requires Plan(settings, consumers, i).exit.Reported? && i.request.Found?
    ensures MatchIssuerType(settings.types, i.request.value) == Some(Plan(settings, consumers, i).exit.key)
  {
  }
}
