/** One pass of the watcher while everything else goes on is a pointwise update of its snapshot. */
module WatcherPass {
  import opened Bytes
  import opened Wrappers
  import opened PaymentStore
  import opened Watcher
  import opened WatcherRuns
  import opened WatcherPayments

  // ----- One pass of the watcher, with everything else going on -----

  /** No new snapshot is taken in the run. */
  predicate NoTick(actions: seq<Action>) {
    forall a <- actions :: !a.Tick?
  }

  /** What the watcher found out in a run: the outcome of the lookup and issuance for each session processed. */
  function Outcomes(cfg: Config, s: State, actions: seq<Action>): map<Text, Option<Outcome>>
    requires Possible(cfg, s, actions)
    decreases |actions|
  {
    if actions == [] then
      map[]
    else
      AddOutcome(cfg, s, actions[0], Outcomes(cfg, Step(cfg, s, actions[0]), actions[1..]))
  }

  function AddOutcome(cfg: Config, s: State, a: Action, later: map<Text, Option<Outcome>>): map<Text, Option<Outcome>>
    requires Enabled(s, a)
  {
    if a.Lookup? then later[HeadId(s) := Resolve(cfg, s.batch[0], a.answer)] else later
  }

  /** What the surroundings answered in a run, for each session looked up. */
  function Answers(cfg: Config, s: State, actions: seq<Action>): map<Text, Answer>
    requires Possible(cfg, s, actions)
    decreases |actions|
  {
    if actions == [] then
      map[]
    else
      AddAnswer(s, actions[0], Answers(cfg, Step(cfg, s, actions[0]), actions[1..]))
  }

  function AddAnswer(s: State, a: Action, later: map<Text, Answer>): map<Text, Answer>
    requires Enabled(s, a)
  {
    if a.Lookup? then later[HeadId(s) := a.answer] else later
  }

  /** The ids of the unprocessed part of the snapshot whose lookup is still to come. */
  function ToLookUp(s: State): set<Text> {
    set i | 0 <= i < |s.batch| && (i > 0 || s.holding.None?) :: s.batch[i].request.sessionId
  }

  /** The session once its outcome is applied: the one held for it, or the one still to be found. */
  function Expected(s: State, outcomes: map<Text, Option<Outcome>>, id: Text): SessionRecord
    requires id in s.sessions
  {
    if s.holding.Some? && s.batch != [] && HeadId(s) == id then Paid(s.sessions[id], s.holding.value.artifact)
    else if id in outcomes then Applied(s.sessions[id], outcomes[id])
    else s.sessions[id]
  }

  /** The rest of the pass gives each session of `s` what is expected of it, and leaves every later session unpaid. */
  ghost predicate PassEndsAs(s: State, end: State, outcomes: map<Text, Option<Outcome>>) {
    && outcomes.Keys == ToLookUp(s)
    && (forall id :: id in s.sessions ==> id in end.sessions && end.sessions[id] == Expected(s, outcomes, id))
    && (forall id :: id in end.sessions && id !in s.sessions ==> !end.sessions[id].paid)
  }

  /** The ids looked up in a run, in order. */
  function LookedUp(cfg: Config, s: State, actions: seq<Action>): seq<Text>
    requires Possible(cfg, s, actions)
    decreases |actions|
  {
    if actions == [] then []
    else LookedUpBy(s, actions[0]) + LookedUp(cfg, Step(cfg, s, actions[0]), actions[1..])
  }

  function LookedUpBy(s: State, a: Action): seq<Text>
    requires Enabled(s, a)
  {
    if a.Lookup? then [HeadId(s)] else []
  }

  lemma LookUpHead(s: State, s': State)
    requires BatchSound(s) && s.batch != [] && s.holding.None?
    requires || (s'.batch == s.batch && s'.holding.Some?)
             || (s'.batch == s.batch[1..] && s'.holding.None?)
    ensures ToLookUp(s) == ToLookUp(s') + {HeadId(s)} && HeadId(s) !in ToLookUp(s')
  {
    var head, rest := HeadId(s), s.batch[1..];
    forall id | id in ToLookUp(s) && id != head ensures id in ToLookUp(s') {
      var i :| 0 <= i < |s.batch| && s.batch[i].request.sessionId == id;
      assert i > 0 && rest[i - 1] == s.batch[i];
    }
  }

  lemma MarkHead(s: State, s': State)
    requires BatchSound(s) && s.batch != [] && s.holding.Some?
    requires s'.batch == s.batch[1..] && s'.holding.None?
    ensures ToLookUp(s) == ToLookUp(s') && HeadId(s) !in ToLookUp(s')
  {
    var rest := s.batch[1..];
    forall id | id in ToLookUp(s) ensures id in ToLookUp(s') {
      var i :| 0 < i < |s.batch| && s.batch[i].request.sessionId == id;
      assert rest[i - 1] == s.batch[i];
    }
  }

  lemma LookupContinues(s: State, s': State, end: State, outcome: Option<Outcome>, later: map<Text, Option<Outcome>>)
    requires BatchSound(s) && s.batch != [] && s.holding.None? && s'.sessions == s.sessions
    requires if outcome.None? then s'.batch == s.batch[1..] && s'.holding.None?
             else s'.batch == s.batch && s'.holding == outcome
    requires PassEndsAs(s', end, later)
    ensures PassEndsAs(s, end, later[HeadId(s) := outcome])
  {
    LookUpHead(s, s');
    forall id | id in s.sessions
      ensures id in end.sessions && end.sessions[id] == Expected(s, later[HeadId(s) := outcome], id)
    {
      ExpectedAtLookup(s, s', outcome, later, id);
    }
  }

  lemma ExpectedAtLookup(s: State, s': State, outcome: Option<Outcome>, later: map<Text, Option<Outcome>>, id: Text)
    requires BatchSound(s) && s.batch != [] && s.holding.None? && s'.sessions == s.sessions && id in s.sessions
    requires if outcome.None? then s'.batch == s.batch[1..] && s'.holding.None?
             else s'.batch == s.batch && s'.holding == outcome
    requires HeadId(s) !in later
    ensures Expected(s, later[HeadId(s) := outcome], id) == Expected(s', later, id)
  {
  }

  lemma MarkContinues(s: State, s': State, end: State, later: map<Text, Option<Outcome>>)
    requires BatchSound(s) && s.batch != [] && s.holding.Some?
    requires s'.batch == s.batch[1..] && s'.holding.None?
    requires s'.sessions == s.sessions[HeadId(s) := Paid(s.sessions[HeadId(s)], s.holding.value.artifact)]
    requires PassEndsAs(s', end, later)
    ensures PassEndsAs(s, end, later)
  {
    MarkHead(s, s');
  }

  /** A session that is not in the batch keeps its record. */
  lemma ExpectedOutsideBatch(s: State, outcomes: map<Text, Option<Outcome>>, id: Text)
    requires id in s.sessions && outcomes.Keys == ToLookUp(s) && !InBatch(s, id)
    ensures Expected(s, outcomes, id) == s.sessions[id]
  {
    assert s.batch != [] ==> s.batch[0].request.sessionId != id;
  }

  lemma OthersContinue(s: State, s': State, end: State, later: map<Text, Option<Outcome>>)
    requires BatchSound(s) && s'.batch == s.batch && s'.holding == s.holding
    requires forall id :: id in s.sessions ==> id in s'.sessions && s'.sessions[id] == s.sessions[id]
    requires forall id :: id in s'.sessions && id !in s.sessions ==> !s'.sessions[id].paid
    requires PassEndsAs(s', end, later)
    ensures PassEndsAs(s, end, later)
  {
    assert ToLookUp(s) == ToLookUp(s');
    forall id | id in end.sessions && id !in s.sessions ensures !end.sessions[id].paid {
      if id in s'.sessions {
        ExpectedOutsideBatch(s', later, id);
      }
    }
    forall id | id in s.sessions ensures Expected(s', later, id) == Expected(s, later, id) {
      ExpectedCarriesOver(s, s', later, id);
    }
  }

  lemma ExpectedCarriesOver(s: State, s': State, outcomes: map<Text, Option<Outcome>>, id: Text)
    requires s'.batch == s.batch && s'.holding == s.holding
    requires id in s.sessions && id in s'.sessions && s'.sessions[id] == s.sessions[id]
    ensures Expected(s', outcomes, id) == Expected(s, outcomes, id)
  {
  }

  lemma LookupStepContinues(cfg: Config, s: State, a: Action, end: State, later: map<Text, Option<Outcome>>)
    requires BatchSound(s) && Enabled(s, a) && a.Lookup? && PassEndsAs(Step(cfg, s, a), end, later)
    ensures PassEndsAs(s, end, AddOutcome(cfg, s, a, later))
  {
    var s', outcome := LookupMakes(cfg, s, a, later);
    LookupContinues(s, s', end, outcome, later);
  }

  lemma LookupMakes(cfg: Config, s: State, a: Action, later: map<Text, Option<Outcome>>)
    returns (s': State, outcome: Option<Outcome>)
    requires Enabled(s, a) && a.Lookup?
    ensures s' == Step(cfg, s, a) && AddOutcome(cfg, s, a, later) == later[HeadId(s) := outcome]
    ensures s'.sessions == s.sessions
    ensures if outcome.None? then s'.batch == s.batch[1..] && s'.holding.None?
            else s'.batch == s.batch && s'.holding == outcome
  {
    s', outcome := Step(cfg, s, a), Resolve(cfg, s.batch[0], a.answer);
  }

  lemma MarkStepContinues(cfg: Config, s: State, end: State, later: map<Text, Option<Outcome>>)
    requires BatchSound(s) && Enabled(s, Mark) && PassEndsAs(Step(cfg, s, Mark), end, later)
    ensures PassEndsAs(s, end, later)
  {
    HeadInStore(s);
    MarkContinues(s, Step(cfg, s, Mark), end, later);
  }

  lemma QuietStepContinues(cfg: Config, s: State, a: Action, end: State, later: map<Text, Option<Outcome>>)
    requires Inv(cfg, s) && Enabled(s, a) && (a.Insert? || a.Advance? || a.Grow?)
    requires PassEndsAs(Step(cfg, s, a), end, later)
    ensures PassEndsAs(s, end, later)
  {
    if a.Insert? {
      InsertIsNew(cfg, s, a);
    }
    OthersContinue(s, Step(cfg, s, a), end, later);
  }

  lemma StepContinues(cfg: Config, s: State, a: Action, end: State, later: map<Text, Option<Outcome>>)
    requires Inv(cfg, s) && Enabled(s, a) && !a.Tick?
    requires PassEndsAs(Step(cfg, s, a), end, later)
    ensures PassEndsAs(s, end, AddOutcome(cfg, s, a, later))
  {
    if a.Lookup? {
      LookupStepContinues(cfg, s, a, end, later);
    } else if a.Mark? {
      MarkStepContinues(cfg, s, end, later);
    } else {
      QuietStepContinues(cfg, s, a, end, later);
    }
  }

  lemma PassOver(s: State)
    requires s.batch == [] && s.holding.None?
    ensures PassEndsAs(s, s, map[])
  {
  }

  lemma LookupListsHead(s: State, s': State, rest: seq<Text>)
    requires BatchSound(s) && s.batch != [] && s.holding.None?
    requires (s'.batch == s.batch && s'.holding.Some?) || (s'.batch == s.batch[1..] && s'.holding.None?)
    requires Lists(rest, ToLookUp(s'))
    ensures Lists([HeadId(s)] + rest, ToLookUp(s))
  {
    LookUpHead(s, s');
    assert forall id :: id in [HeadId(s)] + rest <==> id == HeadId(s) || id in rest;
  }

  /** Each outcome is that of the answer given for the session, as the session was at the start. */
  ghost predicate OutcomesOf(resolve: (SessionRecord, Answer) -> Option<Outcome>, sessions: Sessions,
                             outcomes: map<Text, Option<Outcome>>, answers: map<Text, Answer>) {
    && outcomes.Keys == answers.Keys
    && (forall id :: id in answers ==> id in sessions && outcomes[id] == resolve(sessions[id], answers[id]))
  }

  function ResolveBy(cfg: Config): (SessionRecord, Answer) -> Option<Outcome> {
    (x, answer) => Resolve(cfg, x, answer)
  }

  lemma NewOutcome(resolve: (SessionRecord, Answer) -> Option<Outcome>, sessions: Sessions, id: Text, answer: Answer,
                   outcomes: map<Text, Option<Outcome>>, answers: map<Text, Answer>)
    requires OutcomesOf(resolve, sessions, outcomes, answers) && id in sessions
    ensures OutcomesOf(resolve, sessions, outcomes[id := resolve(sessions[id], answer)], answers[id := answer])
  {
  }

  lemma OldOutcomes(resolve: (SessionRecord, Answer) -> Option<Outcome>, before: Sessions, after: Sessions,
                    outcomes: map<Text, Option<Outcome>>, answers: map<Text, Answer>)
    requires OutcomesOf(resolve, after, outcomes, answers)
    requires forall id :: id in answers ==> id in before && id in after && after[id] == before[id]
    ensures OutcomesOf(resolve, before, outcomes, answers)
  {
  }

  lemma StepOutcomes(cfg: Config, s: State, a: Action, outcomes: map<Text, Option<Outcome>>, answers: map<Text, Answer>)
    requires Inv(cfg, s) && Enabled(s, a) && !a.Tick?
    requires OutcomesOf(ResolveBy(cfg), Step(cfg, s, a).sessions, outcomes, answers)
    requires outcomes.Keys == ToLookUp(Step(cfg, s, a))
    ensures OutcomesOf(ResolveBy(cfg), s.sessions, AddOutcome(cfg, s, a, outcomes), AddAnswer(s, a, answers))
  {
    StepKeepsBatchSessions(cfg, s, a);
    OldOutcomes(ResolveBy(cfg), s.sessions, Step(cfg, s, a).sessions, outcomes, answers);
    if a.Lookup? {
      HeadInStore(s);
      NewOutcome(ResolveBy(cfg), s.sessions, HeadId(s), a.answer, outcomes, answers);
    }
  }

  lemma HeadInStore(s: State)
    requires BatchSound(s) && s.batch != []
    ensures HeadId(s) in s.sessions && s.sessions[HeadId(s)] == s.batch[0]
  {
  }

  /** The sessions still to be looked up are in the store, and no step changes them. */
  lemma StepKeepsBatchSessions(cfg: Config, s: State, a: Action)
    requires Inv(cfg, s) && Enabled(s, a) && !a.Tick?
    ensures forall id :: id in ToLookUp(Step(cfg, s, a)) ==>
              id in s.sessions && id in Step(cfg, s, a).sessions && Step(cfg, s, a).sessions[id] == s.sessions[id]
  {
    var s' := Step(cfg, s, a);
    if a.Mark? {
      MarkHead(s, s');
      MarkLeavesOthers(s, cfg);
    } else if a.Insert? {
      InsertIsNew(cfg, s, a);
    }
  }

  lemma {:induction false} PassOutcomes(cfg: Config, s: State, actions: seq<Action>)
    requires Inv(cfg, s) && Possible(cfg, s, actions) && NoTick(actions)
    requires Exec(cfg, s, actions).batch == []
    ensures OutcomesOf(ResolveBy(cfg), s.sessions, Outcomes(cfg, s, actions), Answers(cfg, s, actions))
    decreases |actions|
  {
    if actions != [] {
      var a, rest := actions[0], actions[1..];
      assert a in actions && forall b <- rest :: b in actions;
      StepKeepsInv(cfg, s, a);
      PassOutcomes(cfg, Step(cfg, s, a), rest);
      PassIsPointwise(cfg, Step(cfg, s, a), rest);
      StepOutcomes(cfg, s, a, Outcomes(cfg, Step(cfg, s, a), rest), Answers(cfg, Step(cfg, s, a), rest));
    }
  }

  lemma {:induction false} AnswersGiven(cfg: Config, s: State, actions: seq<Action>)
    requires Possible(cfg, s, actions)
    ensures forall id :: id in Answers(cfg, s, actions) ==> Lookup(Answers(cfg, s, actions)[id]) in actions
    decreases |actions|
  {
    if actions != [] {
      AnswersGiven(cfg, Step(cfg, s, actions[0]), actions[1..]);
      assert forall b <- actions[1..] :: b in actions;
    }
  }

  lemma StepLooksUp(cfg: Config, s: State, a: Action, rest: seq<Text>)
    requires Inv(cfg, s) && Enabled(s, a) && !a.Tick?
    requires Lists(rest, ToLookUp(Step(cfg, s, a)))
    ensures Lists(LookedUpBy(s, a) + rest, ToLookUp(s))
  {
    var s' := Step(cfg, s, a);
    if a.Lookup? {
      LookupListsHead(s, s', rest);
    } else {
      assert [] + rest == rest;
      if a.Mark? {
        MarkHead(s, s');
      } else {
        assert ToLookUp(s') == ToLookUp(s);
      }
    }
  }

  /** The ids looked up to the end of a pass are those still to be looked up, each once. */
  lemma {:induction false} LookedUpOnce(cfg: Config, s: State, actions: seq<Action>)
    requires Inv(cfg, s) && Possible(cfg, s, actions) && NoTick(actions)
    requires Exec(cfg, s, actions).batch == []
    ensures Lists(LookedUp(cfg, s, actions), ToLookUp(s))
    decreases |actions|
  {
    if actions != [] {
      var a, rest := actions[0], actions[1..];
      assert a in actions && forall b <- rest :: b in actions;
      StepKeepsInv(cfg, s, a);
      LookedUpOnce(cfg, Step(cfg, s, a), rest);
      StepLooksUp(cfg, s, a, LookedUp(cfg, Step(cfg, s, a), rest));
    }
  }

  /** From any point of a pass to its end. */
  lemma {:induction false} PassIsPointwise(cfg: Config, s: State, actions: seq<Action>)
    requires Inv(cfg, s) && Possible(cfg, s, actions) && NoTick(actions)
    requires Exec(cfg, s, actions).batch == []
    ensures PassEndsAs(s, Exec(cfg, s, actions), Outcomes(cfg, s, actions))
    decreases |actions|
  {
    if actions == [] {
      PassOver(s);
    } else {
      var a, rest := actions[0], actions[1..];
      assert a in actions && forall b <- rest :: b in actions;
      StepKeepsInv(cfg, s, a);
      PassIsPointwise(cfg, Step(cfg, s, a), rest);
      StepContinues(cfg, s, a, Exec(cfg, Step(cfg, s, a), rest), Outcomes(cfg, Step(cfg, s, a), rest));
    }
  }

  /** One pass of the watcher, from its snapshot to the end of the batch, with sessions inserted, time passing and
      the ledger growing meanwhile: every snapshot session is looked up exactly once, the sessions whose own lookup
      and issuance succeeded become paid with what was issued for them, by the answer to their lookup alone, no other earlier session changes, and those
      inserted meanwhile are unpaid at its end. The order of the snapshot plays no part. */
  lemma TickIsPointwise(cfg: Config, s: State, tick: Action, actions: seq<Action>)
    requires Reachable(cfg, s) && Enabled(s, tick) && tick.Tick?
    requires Possible(cfg, Step(cfg, s, tick), actions) && NoTick(actions)
    requires Exec(cfg, Step(cfg, s, tick), actions).batch == []
    ensures var answers, end := Answers(cfg, Step(cfg, s, tick), actions), Exec(cfg, Step(cfg, s, tick), actions);
            && answers.Keys == SnapshotIds(s.sessions, tick.readings)
            && (forall id :: id in answers ==> Lookup(answers[id]) in actions)
            && Lists(LookedUp(cfg, Step(cfg, s, tick), actions), SnapshotIds(s.sessions, tick.readings))
            && (forall id :: id in s.sessions ==>
                  && id in end.sessions
                  && if id in answers then DueUpdate(cfg, s.sessions[id], s.sessions[id], end.sessions[id], answers[id])
                     else end.sessions[id] == s.sessions[id])
            && (forall id :: id in end.sessions && id !in s.sessions ==> !end.sessions[id].paid)
  {
    ReachableInv(cfg, s);
    StepKeepsInv(cfg, s, tick);
    var s' := Step(cfg, s, tick);
    PassIsPointwise(cfg, s', actions);
    LookedUpOnce(cfg, s', actions);
    PassOutcomes(cfg, s', actions);
    AnswersGiven(cfg, s', actions);
    var answers := Answers(cfg, s', actions);
    forall id | id in answers
      ensures id in s.sessions
      ensures DueUpdate(cfg, s.sessions[id], s.sessions[id], Exec(cfg, s', actions).sessions[id], answers[id])
    {
      AppliedIsDue(cfg, s.sessions[id], s.sessions[id], answers[id]);
    }
    SnapshotToLookUp(cfg, s, tick);
  }

  lemma SnapshotToLookUp(cfg: Config, s: State, tick: Action)
    requires Inv(cfg, s) && Enabled(s, tick) && tick.Tick?
    ensures ToLookUp(Step(cfg, s, tick)) == SnapshotIds(s.sessions, tick.readings)
  {
    var s' := Step(cfg, s, tick);
    assert s.holding.None?;
    forall i | 0 <= i < |tick.order|
      ensures tick.order[i] in SnapshotIds(s.sessions, tick.readings)
      ensures s'.batch[i].request.sessionId == tick.order[i]
    {
      assert tick.order[i] in SnapshotIds(s.sessions, tick.readings);
      assert SessionSound(cfg, s, tick.order[i]);
    }
    forall id | id in SnapshotIds(s.sessions, tick.readings) ensures id in ToLookUp(s') {
      var i :| 0 <= i < |tick.order| && tick.order[i] == id;
      assert s'.batch[i].request.sessionId == id;
    }
  }
}
