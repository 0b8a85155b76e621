/** The published scores: they follow the packets' scores downwards only. */
module GameScores {
  import opened GameControl

  // ----- One packet -----

  ghost predicate NoGoals(es: seq<Event>) {
    forall e :: e in es ==> !e.GoalScored?
  }

  lemma {:induction false} PlayersScoreNoGoals(cfg: Config, oldOwn: seq<Robot>, own: seq<Robot>,
                                               oldOpponent: seq<Robot>, opponent: seq<Robot>, n: nat, now: int)
    requires AllKnown(own, n) && AllKnown(opponent, n) && n <= |oldOwn| && n <= |oldOpponent|
    ensures NoGoals(PlayerChanges(cfg, oldOwn, own, oldOpponent, opponent, n, now))
  {
    if n > 0 {
      PlayersScoreNoGoals(cfg, oldOwn, own, oldOpponent, opponent, n - 1, now);
    }
  }

  lemma LastScoreNoGoals(s: GameState, mode: Mode, old': Packet, new': Packet, oldOwn: Team, own: Team, now: int)
    ensures NoGoals(LastSections(s, mode, old', new', oldOwn, own, now).changes)
  {
    var middle := MiddleSections(s, old', new', oldOwn, own, now);
    assert NoGoals(middle.changes);
    var modes := Modes(middle.state, mode, old', new');
    assert NoGoals(modes.changes) && NoGoals(Phases(modes.state, old', new', now).changes);
  }

  /** The changes of a packet, taken apart around its scores. */
  lemma ChangesScore(cfg: Config, m: Monitor, p: Packet, now: int, n: nat) returns (rest: seq<Event>)
    requires Accepts(cfg, m, p) && p.playersPerTeam == n
    requires Readable(cfg, m.packet, n) && Readable(cfg, p, n)
    ensures var scores := Scores(m.published, OwnTeam(cfg, m.packet), OwnTeam(cfg, p),
                                 OpponentTeam(cfg, m.packet), OpponentTeam(cfg, p));
      && Changes(cfg, m, p, now).changes == scores.changes + rest && NoGoals(rest)
      && Changes(cfg, m, p, now).state.team.score == scores.state.team.score
      && Changes(cfg, m, p, now).state.opponent.score == scores.state.opponent.score
  {
    var oldOwn, own := OwnTeam(cfg, m.packet), OwnTeam(cfg, p);
    var oldOpponent, opponent := OpponentTeam(cfg, m.packet), OpponentTeam(cfg, p);
    var scores := Scores(m.published, oldOwn, own, oldOpponent, opponent);
    var players := PlayerChanges(cfg, oldOwn.players, own.players, oldOpponent.players, opponent.players, n, now);
    var first := FirstSections(cfg, m.published, oldOwn, own, oldOpponent, opponent, n, now);
    var coaches := Coaches(first.state, oldOwn, own, oldOpponent, opponent);
    var halves := Halves(coaches.state, m.packet, p);
    var last := LastSections(halves.state, m.mode, m.packet, p, oldOwn, own, now);
    PlayersScoreNoGoals(cfg, oldOwn.players, own.players, oldOpponent.players, opponent.players, n, now);
    LastScoreNoGoals(halves.state, m.mode, m.packet, p, oldOwn, own, now);
    LastSectionsKeep(halves.state, m.mode, m.packet, p, oldOwn, own, now);
    hide LastSections, PlayerChanges, Roster, Readable, Accepts;
    rest := players + coaches.changes + halves.changes + last.changes;
    Regroup(scores.changes, players, coaches.changes, halves.changes, last.changes);
  }

  lemma Regroup(a: seq<Event>, b: seq<Event>, c: seq<Event>, d: seq<Event>, e: seq<Event>)
    ensures (a + b) + c + d + e == a + (b + c + d + e)
  {
  }

  lemma ScoresAre(s: GameState, oldOwn: Team, own: Team, oldOpponent: Team, opponent: Team)
    ensures var c := Scores(s, oldOwn, own, oldOpponent, opponent);
      && c.state.team.score == (if own.score < oldOwn.score then own.score else s.team.score)
      && c.state.opponent.score == (if opponent.score < oldOpponent.score then opponent.score else s.opponent.score)
      && (own.score < oldOwn.score || opponent.score < oldOpponent.score ==> c.changes != [])
      && (forall total :: GoalScored(TEAM, total) in c.changes <==> own.score < oldOwn.score && total == own.score)
      && forall total :: GoalScored(OPPONENT, total) in c.changes <==>
        opponent.score < oldOpponent.score && total == opponent.score
  {
  }

  lemma PublishedIs(cfg: Config, m: Monitor, p: Packet, now: int, n: nat)
    requires Readable(cfg, m.packet, n) && LaidOut(p) && p.playersPerTeam == n
    requires p.version == SUPPORTED_VERSION && Accepts(cfg, m, p)
    ensures Received(cfg, m, p, now).published
         == if Changes(cfg, m, p, now).changes != [] then Changes(cfg, m, p, now).state else m.published
    ensures Received(cfg, m, p, now).emitted == m.emitted + Notices(cfg, m, p)
            + PhaseNotice(Changes(cfg, m, p, now).state, m.packet, p) + Changes(cfg, m, p, now).changes
    ensures Received(cfg, m, p, now).packet == p && Readable(cfg, p, n)
  {
    hide Changes;
  }

  /** A score as published after an accepted packet: the packet's exactly if it is lower than the one
      before, or was published already. */
  ghost predicate FollowsDrops(shown': nat, shown: nat, old': nat, new': nat) {
    && (shown' == new' <==> new' < old' || shown == new')
    && (!(new' < old') ==> shown' == shown)
  }

  /** The published scores follow the packets' downwards only, and a goal is announced exactly when a
      score drops. */
  lemma ScoresFollowDrops(cfg: Config, m: Monitor, p: Packet, now: int, n: nat)
    requires Readable(cfg, m.packet, n) && LaidOut(p) && p.playersPerTeam == n
    requires p.version == SUPPORTED_VERSION && Accepts(cfg, m, p)
    ensures FollowsDrops(Received(cfg, m, p, now).published.team.score, m.published.team.score,
                         OwnTeam(cfg, m.packet).score, OwnTeam(cfg, p).score)
    ensures FollowsDrops(Received(cfg, m, p, now).published.opponent.score, m.published.opponent.score,
                         OpponentTeam(cfg, m.packet).score, OpponentTeam(cfg, p).score)
    ensures forall total ::
              (GoalScored(TEAM, total) in Changes(cfg, m, p, now).changes <==>
               OwnTeam(cfg, p).score < OwnTeam(cfg, m.packet).score && total == OwnTeam(cfg, p).score)
    ensures forall total ::
              (GoalScored(OPPONENT, total) in Changes(cfg, m, p, now).changes <==>
               OpponentTeam(cfg, p).score < OpponentTeam(cfg, m.packet).score && total == OpponentTeam(cfg, p).score)
  {
    assert HasBothTeams(cfg, m.packet) && HasBothTeams(cfg, p);
    hide Readable, Accepts, Changes, LaidOut, Received, Scores, FirstTeam;
    PublishedIs(cfg, m, p, now, n);
    var rest := ChangesScore(cfg, m, p, now, n);
    ScoresAre(m.published, OwnTeam(cfg, m.packet), OwnTeam(cfg, p), OpponentTeam(cfg, m.packet), OpponentTeam(cfg, p));
  }

  // ----- Runs -----

  /** The published scores are the last accepted packet's. */
  ghost predicate ScoresShown(cfg: Config, m: Monitor)
    requires HasBothTeams(cfg, m.packet)
  {
    m.published.team.score == OwnTeam(cfg, m.packet).score
      && m.published.opponent.score == OpponentTeam(cfg, m.packet).score
  }

  /** An accepted packet with a score above the one before. */
  ghost predicate Raises(cfg: Config, m: Monitor, p: Packet)
    requires HasBothTeams(cfg, m.packet)
  {
    p.version == SUPPORTED_VERSION && Accepts(cfg, m, p) &&
    (OwnTeam(cfg, p).score > OwnTeam(cfg, m.packet).score
     || OpponentTeam(cfg, p).score > OpponentTeam(cfg, m.packet).score)
  }

  lemma ReceivedShows(cfg: Config, m: Monitor, p: Packet, now: int, n: nat)
    requires Readable(cfg, m.packet, n) && LaidOut(p) && p.playersPerTeam == n && ScoresShown(cfg, m)
    ensures Readable(cfg, Received(cfg, m, p, now).packet, n)
    ensures ScoresShown(cfg, Received(cfg, m, p, now)) <==> !Raises(cfg, m, p)
  {
    if p.version == SUPPORTED_VERSION && Accepts(cfg, m, p) {
      ScoresFollowDrops(cfg, m, p, now, n);
    }
  }

  ghost predicate AlwaysShown(cfg: Config, m: Monitor, arrivals: seq<Arrival>, n: nat)
    requires Readable(cfg, m.packet, n) && forall i :: 0 <= i < |arrivals| ==> Arrives(arrivals[i], n)
    decreases |arrivals|
  {
    ScoresShown(cfg, m) && (arrivals == [] ||
      (assert Arrives(arrivals[0], n);
       ReceivedIsReadable(cfg, m, arrivals[0].packet, arrivals[0].now, n);
       AlwaysShown(cfg, Received(cfg, m, arrivals[0].packet, arrivals[0].now), arrivals[1..], n)))
  }

  ghost predicate NoneRaises(cfg: Config, m: Monitor, arrivals: seq<Arrival>, n: nat)
    requires Readable(cfg, m.packet, n) && forall i :: 0 <= i < |arrivals| ==> Arrives(arrivals[i], n)
    decreases |arrivals|
  {
    arrivals == [] ||
      (assert Arrives(arrivals[0], n);
       ReceivedIsReadable(cfg, m, arrivals[0].packet, arrivals[0].now, n);
       !Raises(cfg, m, arrivals[0].packet)
       && NoneRaises(cfg, Received(cfg, m, arrivals[0].packet, arrivals[0].now), arrivals[1..], n))
  }

  /** Over every run the published scores stay those of the packets exactly while no score rises. */
  lemma {:induction false} ShownWhileNoneRises(cfg: Config, m: Monitor, arrivals: seq<Arrival>, n: nat)
    requires Readable(cfg, m.packet, n) && forall i :: 0 <= i < |arrivals| ==> Arrives(arrivals[i], n)
    requires ScoresShown(cfg, m)
    ensures AlwaysShown(cfg, m, arrivals, n) <==> NoneRaises(cfg, m, arrivals, n)
    decreases |arrivals|
  {
    if arrivals != [] {
      var a := arrivals[0];
      assert Arrives(a, n);
      ReceivedIsReadable(cfg, m, a.packet, a.now, n);
      ReceivedShows(cfg, m, a.packet, a.now, n);
      hide Received, Readable, ScoresShown, Raises;
      if !Raises(cfg, m, a.packet) {
        ShownWhileNoneRises(cfg, Received(cfg, m, a.packet, a.now), arrivals[1..], n);
      } else {
        NotShownAtOnce(cfg, Received(cfg, m, a.packet, a.now), arrivals[1..], n);
      }
    }
  }

  lemma NotShownAtOnce(cfg: Config, m: Monitor, arrivals: seq<Arrival>, n: nat)
    requires Readable(cfg, m.packet, n) && forall i :: 0 <= i < |arrivals| ==> Arrives(arrivals[i], n)
    requires !ScoresShown(cfg, m)
    ensures !AlwaysShown(cfg, m, arrivals, n)
  {
  }

  // ----- Packets that show it -----

  const US := Config(1, 1)

  /** A state as published at the start. */
  const START := GameState(INITIAL, NORMAL, true, false, 0, false, 0, 0,
                           TeamState(1, 0, "", []), TeamState(0, 0, "", []))

  /** A packet of a match between teams 1 and 2. */
  function Match(state: PlayState, mode: Mode, ours: nat, theirs: nat): Packet {
    Packet(SUPPORTED_VERSION, PLAYERS_PER_TEAM, state, true, CYAN, mode, CYAN, -1, 0, 0,
           [Team(1, CYAN, ours, "", InitialPlayers()), Team(2, MAGENTA, theirs, "", InitialPlayers())])
  }

  lemma TeamsOf(state: PlayState, mode: Mode, ours: nat, theirs: nat)
    requires state != Play(TIMED_OUT)
    ensures var p := Match(state, mode, ours, theirs);
      && Readable(US, p, PLAYERS_PER_TEAM) && PenaltiesKnown(US, p)
      && OwnTeam(US, p) == p.teams[0] && OpponentTeam(US, p) == p.teams[1]
  {
    var p := Match(state, mode, ours, theirs);
    assert p.teams[1..][0] == p.teams[1] && p.teams[1..] == [p.teams[1]];
    assert FirstTeam(p.teams, 1, true) == Some(p.teams[0]);
    assert FirstTeam(p.teams, 1, false) == FirstTeam(p.teams[1..], 1, false) == Some(p.teams[1]);
  }

  /** The teams of the packet set up at the start. */
  lemma StartOf()
    ensures var m := InitialMonitor(US, START);
      && Readable(US, m.packet, PLAYERS_PER_TEAM) && IsInitialState(US, START)
      && OwnTeam(US, m.packet) == m.packet.teams[0] && OpponentTeam(US, m.packet) == m.packet.teams[1]
  {
    StartsInStep(US, START, PLAYERS_PER_TEAM);
    var ts := InitialMonitor(US, START).packet.teams;
    assert ts[1..] == [ts[1]];
    assert FirstTeam(ts, 1, true) == Some(ts[0]);
    assert FirstTeam(ts, 1, false) == FirstTeam(ts[1..], 1, false) == Some(ts[1]);
  }

  lemma MatchIsAccepted(m: Monitor, state: PlayState, mode: Mode, ours: nat, theirs: nat)
    requires HasBothTeams(US, m.packet) && state != Play(TIMED_OUT) && !mode.UnknownMode?
    ensures Accepts(US, m, Match(state, mode, ours, theirs))
  {
    TeamsOf(state, mode, ours, theirs);
    hide Match, PenaltiesKnown, FirstTeam;
    ModeOf(state, mode, ours, theirs);
  }

  lemma ModeOf(state: PlayState, mode: Mode, ours: nat, theirs: nat)
    ensures var p := Match(state, mode, ours, theirs);
      && p.mode == mode && p.state == state && p.version == SUPPORTED_VERSION && p.playersPerTeam == PLAYERS_PER_TEAM
      && p.teams[0].score == ours && p.teams[1].score == theirs
  {
  }

  /** Our first goal is neither published nor announced as one. */
  lemma FirstGoalIsMissed()
    ensures var m, p := InitialMonitor(US, START), Match(Play(PLAYING), NORMAL, 1, 0);
      && Readable(US, m.packet, PLAYERS_PER_TEAM) && LaidOut(p) && Accepts(US, m, p)
      && OwnTeam(US, p).score == 1 && Received(US, m, p, 0).packet == p
      && Received(US, m, p, 0).published.team.score == 0
      && forall total :: GoalScored(TEAM, total) !in Received(US, m, p, 0).emitted
  {
    var m, p := InitialMonitor(US, START), Match(Play(PLAYING), NORMAL, 1, 0);
    StartOf();
    TeamsOf(Play(PLAYING), NORMAL, 1, 0);
    ModeOf(Play(PLAYING), NORMAL, 1, 0);
    MatchIsAccepted(m, Play(PLAYING), NORMAL, 1, 0);
    ScoresFollowDrops(US, m, p, 0, PLAYERS_PER_TEAM);
    PublishedIs(US, m, p, 0, PLAYERS_PER_TEAM);
    hide Match, Changes, Readable, Accepts, InitialPlayers, Received;
  }

  /** A packet with a mode nobody declared is refused, and its mode stays behind. */
  lemma UndeclaredModeStays()
    ensures var m, p := InitialMonitor(US, START), Match(Play(PLAYING), UnknownMode(7), 0, 0);
      && Readable(US, m.packet, PLAYERS_PER_TEAM) && LaidOut(p) && !Accepts(US, m, p)
      && Received(US, m, p, 0).packet == m.packet && Received(US, m, p, 0).mode == UnknownMode(7)
  {
    var m, p := InitialMonitor(US, START), Match(Play(PLAYING), UnknownMode(7), 0, 0);
    StartOf();
    TeamsOf(Play(PLAYING), UnknownMode(7), 0, 0);
    ModeOf(Play(PLAYING), UnknownMode(7), 0, 0);
    hide Match, PenaltiesKnown, FirstTeam, InitialPlayers;
    UnknownModeSticks(US, m, p, 0);
  }

  /** A change of state in the middle of a timeout is published as if the timeout were over. */
  lemma TimeoutIsForgotten()
    ensures var m := InitialMonitor(US, START);
      var p, q := Match(Play(READY), TIMEOUT, 0, 0), Match(Play(SET), TIMEOUT, 0, 0);
      && Readable(US, m.packet, PLAYERS_PER_TEAM) && LaidOut(p) && LaidOut(q)
      && Received(US, m, p, 0).packet == p && Received(US, m, p, 0).published.phase == TIMED_OUT
      && Received(US, Received(US, m, p, 0), q, 1).packet == q
      && Received(US, Received(US, m, p, 0), q, 1).published.phase != TIMED_OUT
  {
    var m, p, q := InitialMonitor(US, START), Match(Play(READY), TIMEOUT, 0, 0), Match(Play(SET), TIMEOUT, 0, 0);
    StartOf();
    StartsInStep(US, START, PLAYERS_PER_TEAM);
    TeamsOf(Play(READY), TIMEOUT, 0, 0);
    TeamsOf(Play(SET), TIMEOUT, 0, 0);
    ModeOf(Play(READY), TIMEOUT, 0, 0);
    ModeOf(Play(SET), TIMEOUT, 0, 0);
    MatchIsAccepted(m, Play(READY), TIMEOUT, 0, 0);
    assert m.packet.mode == UnknownMode(255);
    hide Match, Changes, InitialPlayers, FirstTeam, PenaltiesKnown;
    ReceivedPhase(US, m, p, 0, PLAYERS_PER_TEAM, false);
    var m1 := Received(US, m, p, 0);
    assert m1.packet == p && PhaseInStep(m1, true);
    MatchIsAccepted(m1, Play(SET), TIMEOUT, 0, 0);
    PhaseShowsTimeouts(US, m1, q, 1, PLAYERS_PER_TEAM, true);
  }
}
