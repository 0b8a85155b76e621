/** Exactly what an accepted referee packet announces and publishes. */
module GameDetails {
  import opened GameControl
  import opened GameScores

  /** Everything an accepted packet is compared with: the last packet and both teams as they were and are. */
  datatype Turn = Turn(old': Packet, new': Packet, oldOwn: Team, own: Team, oldOpponent: Team, opponent: Team)

  ghost function TurnOf(cfg: Config, m: Monitor, p: Packet): Turn
    requires HasBothTeams(cfg, m.packet) && HasBothTeams(cfg, p)
  {
    Turn(m.packet, p, OwnTeam(cfg, m.packet), OwnTeam(cfg, p), OpponentTeam(cfg, m.packet), OpponentTeam(cfg, p))
  }

  // ----- What is announced -----

  /** Our own robot is named as such, the others by their side. */
  predicate RightContext(cfg: Config, context: Context, id: nat) {
    context == OPPONENT || context == (if id == cfg.playerId then SELF else TEAM)
  }

  /** The ball went out anew: a time is given that is newly set or lower than before, or the side is another. */
  predicate KickedOut(t: Turn) {
    || t.new'.dropInTeam != t.old'.dropInTeam
    || (t.new'.dropInTime != -1 && t.old'.dropInTime == -1 && t.old'.dropInTime <= t.new'.dropInTime)
    || (t.new'.dropInTime != -1 && t.old'.dropInTime != -1 && t.new'.dropInTime < t.old'.dropInTime)
  }

  predicate GoalAnnounced(t: Turn, context: Context, total: nat) {
    || (context == TEAM && t.own.score < t.oldOwn.score && total == t.own.score)
    || (context == OPPONENT && t.opponent.score < t.oldOpponent.score && total == t.opponent.score)
  }

  predicate MessageAnnounced(t: Turn, context: Context, message: string) {
    || (context == TEAM && t.own.coachMessage != t.oldOwn.coachMessage && message == t.own.coachMessage)
    || (context == OPPONENT && t.opponent.coachMessage != t.oldOpponent.coachMessage
      && message == t.opponent.coachMessage)
  }

  ghost predicate PenaltyAnnounced(cfg: Config, t: Turn, n: nat, now: int, e: Event)
    requires n <= |t.own.players| && n <= |t.oldOwn.players|
             && n <= |t.opponent.players| && n <= |t.oldOpponent.players|
  {
    match e
    case Penalisation(context, id, ends, reason) =>
      && 1 <= id <= n && RightContext(cfg, context, id)
      && var old' := (if context == OPPONENT then t.oldOpponent else t.oldOwn).players[id - 1];
         var new' := (if context == OPPONENT then t.opponent else t.own).players[id - 1];
         && new'.penaltyState == Penalty(reason) != old'.penaltyState && reason != UNPENALISED
         && ends == now + new'.penalisedTimeLeft
    case Unpenalisation(context, id) =>
      && 1 <= id <= n && RightContext(cfg, context, id)
      && var old' := (if context == OPPONENT then t.oldOpponent else t.oldOwn).players[id - 1];
         var new' := (if context == OPPONENT then t.opponent else t.own).players[id - 1];
         new'.penaltyState == Penalty(UNPENALISED) != old'.penaltyState
    case _ => false
  }

  /** The end of the half and the end of a wait that a phase goes with; 0 where it has none. */
  predicate PhaseTimes(p: Packet, now: int, phase: Phase, primary: int, secondary: int) {
    && primary == (if phase == PLAYING || phase == FINISHED then now + p.secsRemaining else 0)
    && secondary == (if phase == READY || phase == PLAYING || phase == TIMED_OUT then now + p.secondaryTime else 0)
  }

  predicate PhaseAnnounced(t: Turn, now: int, phase: Phase, primary: int, secondary: int) {
    && PhaseTimes(t.new', now, phase, primary, secondary)
    && if TimeoutStarts(t.old', t.new') then phase == TIMED_OUT
       else t.new'.state == Play(phase) && StateMatters(t.old', t.new')
  }

  /** Kick-outs, kick-offs and our colour. */
  ghost predicate SideAnnounced(t: Turn, now: int, e: Event) {
    match e
    case BallKickedOut(context, time) =>
      && KickedOut(t) && time == now - t.new'.dropInTime
      && context == (if t.new'.dropInTeam == t.own.teamColour then TEAM else OPPONENT)
    case KickOffTeam(context) =>
      && t.old'.kickOffTeam != t.new'.kickOffTeam
      && context == (if t.new'.kickOffTeam == t.own.teamColour then TEAM else OPPONENT)
    case ColourChange(colour) =>
      && t.oldOwn.teamColour != t.own.teamColour
      && colour == (if t.own.teamColour == CYAN then CYAN else MAGENTA)
    case _ => false
  }

  /** Exactly these events are announced. */
  ghost predicate Announced(cfg: Config, mode: Mode, t: Turn, n: nat, now: int, e: Event)
    requires n <= |t.own.players| && n <= |t.oldOwn.players|
             && n <= |t.opponent.players| && n <= |t.oldOpponent.players|
  {
    match e
    case GoalScored(context, total) => GoalAnnounced(t, context, total)
    case Penalisation(_, _, _, _) => PenaltyAnnounced(cfg, t, n, now, e)
    case Unpenalisation(_, _) => PenaltyAnnounced(cfg, t, n, now, e)
    case CoachMessage(context, message) => MessageAnnounced(t, context, message)
    case HalfTime(firstHalf) => t.old'.firstHalf != t.new'.firstHalf && firstHalf == t.new'.firstHalf
    case BallKickedOut(_, _) => SideAnnounced(t, now, e)
    case KickOffTeam(_) => SideAnnounced(t, now, e)
    case ColourChange(_) => SideAnnounced(t, now, e)
    case GameMode(m) => ModeChanges(mode, t.old', t.new') && m == t.new'.mode
    case GamePhase(phase, primary, secondary) => PhaseAnnounced(t, now, phase, primary, secondary)
    case Score(_, _) => false
    case PhaseIs(_) => false
  }

  // ----- Section by section -----

  lemma {:induction false} PlayersTell(cfg: Config, t: Turn, n: nat, now: int, e: Event)
    requires AllKnown(t.own.players, n) && AllKnown(t.opponent.players, n)
    requires n <= |t.oldOwn.players| && n <= |t.oldOpponent.players|
    ensures e in PlayerChanges(cfg, t.oldOwn.players, t.own.players, t.oldOpponent.players, t.opponent.players, n, now)
       <==> PenaltyAnnounced(cfg, t, n, now, e)
    decreases n
  {
    if n > 0 {
      PlayersTell(cfg, t, n - 1, now, e);
      hide PlayerChanges;
      OnePlayerTells(OwnContext(cfg, n), n, t.oldOwn.players[n - 1], t.own.players[n - 1], now, e);
      OnePlayerTells(OPPONENT, n, t.oldOpponent.players[n - 1], t.opponent.players[n - 1], now, e);
    }
  }

  lemma OnePlayerTells(context: Context, id: nat, old': Robot, new': Robot, now: int, e: Event)
    requires new'.penaltyState.Penalty?
    ensures e in PlayerChange(context, id, old', new', now) <==>
      new'.penaltyState != old'.penaltyState &&
      e == if new'.penaltyState == Penalty(UNPENALISED) then Unpenalisation(context, id)
           else Penalisation(context, id, now + new'.penalisedTimeLeft, new'.penaltyState.reason)
  {
  }

  lemma ScoresTell(s: GameState, t: Turn, e: Event)
    ensures e in Scores(s, t.oldOwn, t.own, t.oldOpponent, t.opponent).changes
       <==> e.GoalScored? && GoalAnnounced(t, e.context, e.total)
  {
  }

  lemma CoachesTell(s: GameState, t: Turn, e: Event)
    ensures e in Coaches(s, t.oldOwn, t.own, t.oldOpponent, t.opponent).changes
       <==> e.CoachMessage? && MessageAnnounced(t, e.context, e.message)
  {
  }

  lemma FirstTell(cfg: Config, s: GameState, t: Turn, n: nat, now: int, e: Event)
    requires AllKnown(t.own.players, n) && AllKnown(t.opponent.players, n)
    requires n <= |t.oldOwn.players| && n <= |t.oldOpponent.players|
    ensures e in FirstSections(cfg, s, t.oldOwn, t.own, t.oldOpponent, t.opponent, n, now).changes
       <==> (e.GoalScored? && GoalAnnounced(t, e.context, e.total)) || PenaltyAnnounced(cfg, t, n, now, e)
  {
    hide Scores, PlayerChanges, Roster, AllKnown, PenaltyAnnounced;
    ScoresTell(s, t, e);
    PlayersTell(cfg, t, n, now, e);
  }

  lemma MiddleTell(s: GameState, t: Turn, now: int, e: Event)
    ensures e in MiddleSections(s, t.old', t.new', t.oldOwn, t.own, now).changes <==> SideAnnounced(t, now, e)
  {
  }

  lemma PhasesTell(s: GameState, t: Turn, now: int, e: Event)
    requires t.new'.state != Play(TIMED_OUT)
    ensures e in Phases(s, t.old', t.new', now).changes
       <==> e.GamePhase? && PhaseAnnounced(t, now, e.phase, e.primary, e.secondary)
  {
  }

  lemma LastTell(s: GameState, mode: Mode, t: Turn, now: int, e: Event)
    requires t.new'.state != Play(TIMED_OUT)
    ensures e in LastSections(s, mode, t.old', t.new', t.oldOwn, t.own, now).changes
       <==> || SideAnnounced(t, now, e)
            || (e.GameMode? && ModeChanges(mode, t.old', t.new') && e.mode == t.new'.mode)
            || (e.GamePhase? && PhaseAnnounced(t, now, e.phase, e.primary, e.secondary))
  {
    hide MiddleSections, Phases, SideAnnounced, PhaseAnnounced, ModeChanges;
    MiddleTell(s, t, now, e);
    var modes := Modes(MiddleSections(s, t.old', t.new', t.oldOwn, t.own, now).state, mode, t.old', t.new');
    PhasesTell(modes.state, t, now, e);
  }

  /** An accepted packet announces exactly what it should: for every event, whether it is announced. */
  lemma AnnouncedExactly(cfg: Config, m: Monitor, p: Packet, now: int, n: nat, e: Event)
    requires Accepts(cfg, m, p) && p.playersPerTeam == n
    requires Readable(cfg, m.packet, n) && Readable(cfg, p, n)
    ensures e in Changes(cfg, m, p, now).changes <==> Announced(cfg, m.mode, TurnOf(cfg, m, p), n, now, e)
  {
    hide FirstSections, Coaches, Halves, LastSections, AllKnown, PenaltyAnnounced, GoalAnnounced, MessageAnnounced,
         PhaseAnnounced, KickedOut, ModeChanges, FirstTeam;
    var t := TurnOf(cfg, m, p);
    var first := FirstSections(cfg, m.published, t.oldOwn, t.own, t.oldOpponent, t.opponent, n, now);
    var coaches := Coaches(first.state, t.oldOwn, t.own, t.oldOpponent, t.opponent);
    var halves := Halves(coaches.state, m.packet, p);
    var last := LastSections(halves.state, m.mode, m.packet, p, t.oldOwn, t.own, now);
    FirstTell(cfg, m.published, t, n, now, e);
    CoachesTell(first.state, t, e);
    HalvesTell(coaches.state, t, e);
    LastTell(halves.state, m.mode, t, now, e);
    InFour(first.changes, coaches.changes, halves.changes, last.changes, e);
    PenaltyIsOfPlayers(cfg, t, n, now, e);
  }

  lemma HalvesTell(s: GameState, t: Turn, e: Event)
    ensures e in Halves(s, t.old', t.new').changes
       <==> e.HalfTime? && t.old'.firstHalf != t.new'.firstHalf && e.firstHalf == t.new'.firstHalf
  {
  }

  lemma InFour(a: seq<Event>, b: seq<Event>, c: seq<Event>, d: seq<Event>, e: Event)
    ensures e in a + b + c + d <==> e in a || e in b || e in c || e in d
  {
  }

  lemma PenaltyIsOfPlayers(cfg: Config, t: Turn, n: nat, now: int, e: Event)
    requires n <= |t.own.players| && n <= |t.oldOwn.players|
             && n <= |t.opponent.players| && n <= |t.oldOpponent.players|
    ensures PenaltyAnnounced(cfg, t, n, now, e) ==> e.Penalisation? || e.Unpenalisation?
  {
  }

  // ----- What is published -----

  /** Something is announced, and with it the state. */
  ghost predicate AnyAnnounced(cfg: Config, mode: Mode, t: Turn, n: nat, now: int)
    requires n <= |t.own.players| && n <= |t.oldOwn.players|
             && n <= |t.opponent.players| && n <= |t.oldOpponent.players|
  {
    exists e :: Announced(cfg, mode, t, n, now, e)
  }

  /** Which side kicks off and kicked out, and when, follow what changed. */
  predicate SidesFollow(t: Turn, now: int, s: GameState, s': GameState) {
    && s'.ourKickOff == (if t.old'.kickOffTeam != t.new'.kickOffTeam then t.new'.kickOffTeam == t.own.teamColour
                         else s.ourKickOff)
    && s'.kickedOutByUs == (if KickedOut(t) then t.new'.dropInTeam == t.own.teamColour else s.kickedOutByUs)
    && s'.kickedOutTime == (if KickedOut(t) then now - t.new'.dropInTime else s.kickedOutTime)
  }

  /** The phase follows the packet's state, and the times that go with a phase change with it, each only for
      the phases that have it. */
  predicate PhaseFollows(t: Turn, now: int, s: GameState, s': GameState) {
    var entered := if TimeoutStarts(t.old', t.new') then Play(TIMED_OUT)
                   else if StateMatters(t.old', t.new') then t.new'.state else UnknownState(0);
    && s'.phase == (if entered.Play? then entered.phase else s.phase)
    && s'.primaryTime == (if entered in {Play(PLAYING), Play(FINISHED)} then now + t.new'.secsRemaining
      else s.primaryTime)
    && s'.secondaryTime == (if entered in {Play(READY), Play(PLAYING), Play(TIMED_OUT)} then now + t.new'.secondaryTime
                            else s.secondaryTime)
  }

  /** The coaches' last messages. */
  predicate MessagesFollow(t: Turn, s: GameState, s': GameState) {
    && s'.team.coachMessage == (if t.own.coachMessage != t.oldOwn.coachMessage then t.own.coachMessage
                                else s.team.coachMessage)
    && s'.opponent.coachMessage
      == (if t.opponent.coachMessage != t.oldOpponent.coachMessage then t.opponent.coachMessage
                                    else s.opponent.coachMessage)
    && s'.team.teamId == s.team.teamId && s'.opponent.teamId == s.opponent.teamId
  }

  /** The first n players with their numbers, penalties and when these end. */
  ghost predicate IsRoster(roster: seq<RobotState>, players: seq<Robot>, n: nat, now: int)
    requires n <= |players|
  {
    |roster| == n && forall i :: 0 <= i < n ==>
      && roster[i].id == i + 1 && Penalty(roster[i].penaltyReason) == players[i].penaltyState
      && roster[i].unpenalised == now + players[i].penalisedTimeLeft
  }

  lemma FirstFollow(cfg: Config, s: GameState, t: Turn, n: nat, now: int)
    requires AllKnown(t.own.players, n) && AllKnown(t.opponent.players, n)
    requires n <= |t.oldOwn.players| && n <= |t.oldOpponent.players|
    ensures var c := FirstSections(cfg, s, t.oldOwn, t.own, t.oldOpponent, t.opponent, n, now).state;
      && c == s.(team := c.team, opponent := c.opponent)
      && c.team.(score := 0, players := []) == s.team.(score := 0, players := [])
      && c.opponent.(score := 0, players := []) == s.opponent.(score := 0, players := [])
      && IsRoster(c.team.players, t.own.players, n, now) && IsRoster(c.opponent.players, t.opponent.players, n, now)
  {
    hide PlayerChanges;
  }

  lemma CoachesFollow(s: GameState, t: Turn)
    ensures var c := Coaches(s, t.oldOwn, t.own, t.oldOpponent, t.opponent).state;
      && c == s.(team := c.team, opponent := c.opponent) && MessagesFollow(t, s, c)
      && c.team.players == s.team.players && c.opponent.players == s.opponent.players
  {
  }

  lemma HalvesFollow(s: GameState, t: Turn)
    ensures var c := Halves(s, t.old', t.new').state; c == s.(firstHalf := c.firstHalf)
  {
  }

  lemma MiddleFollow(s: GameState, t: Turn, now: int)
    ensures var c := MiddleSections(s, t.old', t.new', t.oldOwn, t.own, now).state;
      && c == s.(kickedOutByUs := c.kickedOutByUs, kickedOutTime := c.kickedOutTime, ourKickOff := c.ourKickOff)
      && SidesFollow(t, now, s, c)
  {
  }

  lemma PhasesFollow(s: GameState, t: Turn, now: int)
    requires t.new'.state != Play(TIMED_OUT)
    ensures var c := Phases(s, t.old', t.new', now).state;
      c == s.(phase := c.phase, primaryTime := c.primaryTime, secondaryTime := c.secondaryTime)
        && PhaseFollows(t, now, s, c)
  {
  }

  lemma LastFollow(s: GameState, mode: Mode, t: Turn, now: int)
    requires t.new'.state != Play(TIMED_OUT)
    ensures var c := LastSections(s, mode, t.old', t.new', t.oldOwn, t.own, now).state;
      && c.team == s.team && c.opponent == s.opponent
      && SidesFollow(t, now, s, c) && PhaseFollows(t, now, s, c)
  {
    hide MiddleSections, Phases, SidesFollow, PhaseFollows, ModeChanges;
    MiddleFollow(s, t, now);
    var middle := MiddleSections(s, t.old', t.new', t.oldOwn, t.own, now);
    var modes := Modes(middle.state, mode, t.old', t.new');
    PhasesFollow(modes.state, t, now);
    SidesStay(t, now, s, middle.state, Phases(modes.state, t.old', t.new', now).state);
    PhaseStays(t, now, s, modes.state, Phases(modes.state, t.old', t.new', now).state);
  }

  lemma SidesStay(t: Turn, now: int, s: GameState, s': GameState, s'': GameState)
    requires SidesFollow(t, now, s, s')
    requires s''.ourKickOff == s'.ourKickOff && s''.kickedOutByUs == s'.kickedOutByUs
             && s''.kickedOutTime == s'.kickedOutTime
    ensures SidesFollow(t, now, s, s'')
  {
  }

  lemma PhaseStays(t: Turn, now: int, s: GameState, s': GameState, s'': GameState)
    requires PhaseFollows(t, now, s', s'') && s'.phase == s.phase && s'.primaryTime == s.primaryTime
             && s'.secondaryTime == s.secondaryTime
    ensures PhaseFollows(t, now, s, s'')
  {
  }

  lemma ChangesFollow(cfg: Config, m: Monitor, p: Packet, now: int, n: nat)
    requires Accepts(cfg, m, p) && p.playersPerTeam == n
    requires Readable(cfg, m.packet, n) && Readable(cfg, p, n)
    ensures var t, s, s' := TurnOf(cfg, m, p), m.published, Changes(cfg, m, p, now).state;
      && SidesFollow(t, now, s, s') && PhaseFollows(t, now, s, s') && MessagesFollow(t, s, s')
      && IsRoster(s'.team.players, t.own.players, n, now) && IsRoster(s'.opponent.players, t.opponent.players, n, now)
  {
    hide FirstSections, Coaches, Halves, LastSections, AllKnown, IsRoster, FirstTeam, KickedOut, ModeChanges,
         TimeoutStarts, StateMatters;
    var t := TurnOf(cfg, m, p);
    var first := FirstSections(cfg, m.published, t.oldOwn, t.own, t.oldOpponent, t.opponent, n, now);
    var coaches := Coaches(first.state, t.oldOwn, t.own, t.oldOpponent, t.opponent);
    var halves := Halves(coaches.state, m.packet, p);
    FirstFollow(cfg, m.published, t, n, now);
    CoachesFollow(first.state, t);
    HalvesFollow(coaches.state, t);
    LastFollow(halves.state, m.mode, t, now);
  }

  lemma NothingToFollow(cfg: Config, mode: Mode, t: Turn, n: nat, now: int, s: GameState)
    requires n <= |t.own.players| && n <= |t.oldOwn.players|
             && n <= |t.opponent.players| && n <= |t.oldOpponent.players|
    requires !AnyAnnounced(cfg, mode, t, n, now) && t.new'.state != Play(TIMED_OUT)
    ensures SidesFollow(t, now, s, s) && PhaseFollows(t, now, s, s) && MessagesFollow(t, s, s)
  {
    var side := t.new'.dropInTeam == t.own.teamColour;
    assert !Announced(cfg, mode, t, n, now, BallKickedOut(if side then TEAM else OPPONENT, now - t.new'.dropInTime));
    side := t.new'.kickOffTeam == t.own.teamColour;
    assert !Announced(cfg, mode, t, n, now, KickOffTeam(if side then TEAM else OPPONENT));
    assert !Announced(cfg, mode, t, n, now, CoachMessage(TEAM, t.own.coachMessage));
    assert !Announced(cfg, mode, t, n, now, CoachMessage(OPPONENT, t.opponent.coachMessage));
    NoPhaseToFollow(cfg, mode, t, n, now);
  }

  lemma NoPhaseToFollow(cfg: Config, mode: Mode, t: Turn, n: nat, now: int)
    requires n <= |t.own.players| && n <= |t.oldOwn.players|
             && n <= |t.opponent.players| && n <= |t.oldOpponent.players|
    requires !AnyAnnounced(cfg, mode, t, n, now)
    ensures !TimeoutStarts(t.old', t.new') && (StateMatters(t.old', t.new') ==> !t.new'.state.Play?)
  {
    var phase := if TimeoutStarts(t.old', t.new') then TIMED_OUT else if t.new'.state.Play? then t.new'.state.phase
      else SET;
    var primary := if phase == PLAYING || phase == FINISHED then now + t.new'.secsRemaining else 0;
    var secondary := if phase == READY || phase == PLAYING || phase == TIMED_OUT then now + t.new'.secondaryTime else 0;
    assert !Announced(cfg, mode, t, n, now, GamePhase(phase, primary, secondary));
  }

  /** An accepted packet publishes exactly what it should: the sides, times and messages follow what changed,
      and the rosters are the packet's if anything at all is announced. */
  lemma PublishedExactly(cfg: Config, m: Monitor, p: Packet, now: int, n: nat)
    requires Readable(cfg, m.packet, n) && LaidOut(p) && p.playersPerTeam == n
    requires p.version == SUPPORTED_VERSION && Accepts(cfg, m, p)
    ensures var t, s, s' := TurnOf(cfg, m, p), m.published, Received(cfg, m, p, now).published;
      && SidesFollow(t, now, s, s') && PhaseFollows(t, now, s, s') && MessagesFollow(t, s, s')
      && if AnyAnnounced(cfg, m.mode, t, n, now)
         then IsRoster(s'.team.players, t.own.players, n, now)
           && IsRoster(s'.opponent.players, t.opponent.players, n, now)
         else s' == s
  {
    hide Changes, Received, Announced, FirstTeam, IsRoster, SidesFollow, PhaseFollows, MessagesFollow;
    PublishedIs(cfg, m, p, now, n);
    ChangesFollow(cfg, m, p, now, n);
    var t, c := TurnOf(cfg, m, p), Changes(cfg, m, p, now).changes;
    forall e ensures e in c <==> Announced(cfg, m.mode, t, n, now, e) {
      AnnouncedExactly(cfg, m, p, now, n, e);
    }
    if c == [] {
      NothingToFollow(cfg, m.mode, t, n, now, m.published);
    } else {
      assert c[0] in c;
    }
  }

  /** The notices that need no change of state: the scores when one changes, and the phase when the packet's
      state is looked at. */
  lemma NoticesExactly(cfg: Config, m: Monitor, p: Packet, now: int, n: nat)
    requires Readable(cfg, m.packet, n) && LaidOut(p) && p.playersPerTeam == n
    requires p.version == SUPPORTED_VERSION && Accepts(cfg, m, p)
    ensures var t, r := TurnOf(cfg, m, p), Received(cfg, m, p, now);
      r.emitted == m.emitted
        + (if t.own.score != t.oldOwn.score || t.opponent.score != t.oldOpponent.score
           then [Score(t.own.score, t.opponent.score)] else [])
        + (if StateMatters(m.packet, p) then [PhaseIs(r.published.phase)] else [])
        + Changes(cfg, m, p, now).changes
  {
    hide Changes, Received, FirstTeam;
    PublishedIs(cfg, m, p, now, n);
    ChangesFollow(cfg, m, p, now, n);
    PublishedExactly(cfg, m, p, now, n);
  }

  /** Some team has our id, and some team has not. */
  predicate TeamsFound(cfg: Config, p: Packet) {
    && (exists i :: 0 <= i < |p.teams| && p.teams[i].teamId == cfg.teamId)
    && exists i :: 0 <= i < |p.teams| && p.teams[i].teamId != cfg.teamId
  }

  lemma TeamsFoundExactly(cfg: Config, p: Packet)
    ensures HasBothTeams(cfg, p) <==> TeamsFound(cfg, p)
  {
    hide FirstTeam;
  }

  /** A packet is processed to its end exactly when the teams are found, no penalty is one that nobody declared
      and the mode, if it is looked at, neither. */
  lemma AcceptsExactly(cfg: Config, m: Monitor, p: Packet)
    requires Kept(cfg, m.packet) && LaidOut(p) && p.playersPerTeam <= MAX_NUM_PLAYERS
    ensures Accepts(cfg, m, p) <==>
      && TeamsFound(cfg, p)
      && (forall i :: 0 <= i < p.playersPerTeam ==>
            OwnTeam(cfg, p).players[i].penaltyState.Penalty? && OpponentTeam(cfg, p).players[i].penaltyState.Penalty?)
      && (p.mode.UnknownMode? ==> p.mode == m.mode || m.packet.mode == TIMEOUT)
  {
    hide FirstTeam;
    TeamsFoundExactly(cfg, p);
  }

  /** A packet that is refused leaves no more behind than the scores announced, if the teams were found, and its
      mode, if the penalties were in order too; one of another version leaves nothing. */
  lemma RefusedExactly(cfg: Config, m: Monitor, p: Packet, now: int)
    requires Kept(cfg, m.packet) && LaidOut(p) && p.playersPerTeam <= MAX_NUM_PLAYERS
    requires p.version != SUPPORTED_VERSION || !Accepts(cfg, m, p)
    ensures var r := Received(cfg, m, p, now);
      && r == m.(emitted := r.emitted, mode := r.mode)
      && r.mode == (if p.version == SUPPORTED_VERSION && HasBothTeams(cfg, p) && PenaltiesKnown(cfg, p) then p.mode
                    else m.mode)
      && r.emitted == m.emitted
         + if p.version == SUPPORTED_VERSION && HasBothTeams(cfg, p)
              && (OwnTeam(cfg, p).score != OwnTeam(cfg, m.packet).score
                  || OpponentTeam(cfg, p).score != OpponentTeam(cfg, m.packet).score)
           then [Score(OwnTeam(cfg, p).score, OpponentTeam(cfg, p).score)] else []
  {
    hide FirstTeam, Processed;
  }

  // ----- Runs -----

  /** Who kicks off and who kicked out are published as the last accepted packet has them. */
  ghost predicate SidesShown(cfg: Config, m: Monitor)
    requires HasBothTeams(cfg, m.packet)
  {
    && m.published.ourKickOff == (m.packet.kickOffTeam == OwnTeam(cfg, m.packet).teamColour)
    && m.published.kickedOutByUs == (m.packet.dropInTeam == OwnTeam(cfg, m.packet).teamColour)
  }

  /** An accepted packet in which our colour changes to or from that of the side that kicks off, or that kicked
      out, without another kick-off or kick-out. */
  ghost predicate SwapsSides(cfg: Config, m: Monitor, p: Packet)
    requires HasBothTeams(cfg, m.packet)
  {
    && p.version == SUPPORTED_VERSION && Accepts(cfg, m, p)
    && var was, colour := OwnTeam(cfg, m.packet).teamColour, OwnTeam(cfg, p).teamColour;
       || (p.kickOffTeam == m.packet.kickOffTeam && (p.kickOffTeam == colour) != (p.kickOffTeam == was))
       || (!KickedOut(TurnOf(cfg, m, p)) && (p.dropInTeam == colour) != (p.dropInTeam == was))
  }

  lemma ReceivedShowsSides(cfg: Config, m: Monitor, p: Packet, now: int, n: nat)
    requires Readable(cfg, m.packet, n) && LaidOut(p) && p.playersPerTeam == n && SidesShown(cfg, m)
    ensures Readable(cfg, Received(cfg, m, p, now).packet, n)
    ensures SidesShown(cfg, Received(cfg, m, p, now)) <==> !SwapsSides(cfg, m, p)
  {
    hide Changes, FirstTeam, IsRoster, AnyAnnounced, MessagesFollow, PhaseFollows, Processed;
    ReceivedIsReadable(cfg, m, p, now, n);
    if p.version == SUPPORTED_VERSION && Accepts(cfg, m, p) {
      PublishedIs(cfg, m, p, now, n);
      PublishedExactly(cfg, m, p, now, n);
    }
  }

  ghost predicate SidesAlwaysShown(cfg: Config, m: Monitor, arrivals: seq<Arrival>, n: nat)
    requires Readable(cfg, m.packet, n) && forall i :: 0 <= i < |arrivals| ==> Arrives(arrivals[i], n)
    decreases |arrivals|
  {
    SidesShown(cfg, m) && (arrivals == [] ||
      (assert Arrives(arrivals[0], n);
       ReceivedIsReadable(cfg, m, arrivals[0].packet, arrivals[0].now, n);
       SidesAlwaysShown(cfg, Received(cfg, m, arrivals[0].packet, arrivals[0].now), arrivals[1..], n)))
  }

  ghost predicate NoneSwapsSides(cfg: Config, m: Monitor, arrivals: seq<Arrival>, n: nat)
    requires Readable(cfg, m.packet, n) && forall i :: 0 <= i < |arrivals| ==> Arrives(arrivals[i], n)
    decreases |arrivals|
  {
    arrivals == [] ||
      (assert Arrives(arrivals[0], n);
       ReceivedIsReadable(cfg, m, arrivals[0].packet, arrivals[0].now, n);
       !SwapsSides(cfg, m, arrivals[0].packet)
       && NoneSwapsSides(cfg, Received(cfg, m, arrivals[0].packet, arrivals[0].now), arrivals[1..], n))
  }

  /** Over every run the sides are published as the packets have them exactly while none swaps them. */
  lemma {:induction false} SidesShownWhileNoneSwaps(cfg: Config, m: Monitor, arrivals: seq<Arrival>, n: nat)
    requires Readable(cfg, m.packet, n) && forall i :: 0 <= i < |arrivals| ==> Arrives(arrivals[i], n)
    requires SidesShown(cfg, m)
    ensures SidesAlwaysShown(cfg, m, arrivals, n) <==> NoneSwapsSides(cfg, m, arrivals, n)
    decreases |arrivals|
  {
    if arrivals != [] {
      hide Received, Readable, SidesShown, SwapsSides;
      var a := arrivals[0];
      assert Arrives(a, n);
      ReceivedIsReadable(cfg, m, a.packet, a.now, n);
      ReceivedShowsSides(cfg, m, a.packet, a.now, n);
      if !SwapsSides(cfg, m, a.packet) {
        SidesShownWhileNoneSwaps(cfg, Received(cfg, m, a.packet, a.now), arrivals[1..], n);
      } else {
        SidesNotShownAtOnce(cfg, Received(cfg, m, a.packet, a.now), arrivals[1..], n);
      }
    }
  }

  lemma SidesNotShownAtOnce(cfg: Config, m: Monitor, arrivals: seq<Arrival>, n: nat)
    requires Readable(cfg, m.packet, n) && forall i :: 0 <= i < |arrivals| ==> Arrives(arrivals[i], n)
    requires !SidesShown(cfg, m)
    ensures !SidesAlwaysShown(cfg, m, arrivals, n)
  {
  }

  // A packet of a match in which the teams have changed colours since.
  function Swapped(): Packet {
    Match(Play(PLAYING), NORMAL, 0,
      0).(teams := [Team(1, MAGENTA, 0, "", InitialPlayers()), Team(2, CYAN, 0, "", InitialPlayers())])
  }

  lemma SwappedTeams()
    ensures var p := Swapped();
      Readable(US, p, PLAYERS_PER_TEAM) && OwnTeam(US, p) == p.teams[0] && OpponentTeam(US, p) == p.teams[1]
  {
    var p := Swapped();
    assert p.teams[1..] == [p.teams[1]];
    assert FirstTeam(p.teams, 1, true) == Some(p.teams[0]);
    assert FirstTeam(p.teams, 1, false) == FirstTeam(p.teams[1..], 1, false) == Some(p.teams[1]);
  }

  /** The kick-off stays published as ours after the teams have changed colours. */
  lemma ColoursSwapUnseen()
    ensures var m := Monitor(Match(Play(PLAYING), NORMAL, 0, 0), NORMAL,
            START.(ourKickOff := true, kickedOutByUs := true), []);
      && Readable(US, m.packet, PLAYERS_PER_TEAM) && LaidOut(Swapped()) && SidesShown(US, m)
      && Received(US, m, Swapped(), 0).packet == Swapped() && !SidesShown(US, Received(US, m, Swapped(), 0))
  {
    var m := Monitor(Match(Play(PLAYING), NORMAL, 0, 0), NORMAL, START.(ourKickOff := true, kickedOutByUs := true), []);
    TeamsOf(Play(PLAYING), NORMAL, 0, 0);
    SwappedTeams();
    hide FirstTeam, InitialPlayers, Changes;
    assert SwapsSides(US, m, Swapped());
    ReceivedShowsSides(US, m, Swapped(), 0, PLAYERS_PER_TEAM);
  }
}
