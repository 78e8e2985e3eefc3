/**
  Per-player statistics of the stats page: one pass over the matches, each contributing one
  observation for its first player and one for its second, tallied into an insertion-ordered
  table keyed by player name.
*/
module Stats {
  import opened MatchRecord
  import opened Sequences

  /** One side of one match: who played, what they scored, whether they are the recorded winner. */
  datatype Sighting = Sighting(name: string, score: int, won: bool)

  /** A player's counters: matches played, sum of own scores, matches recorded as won. */
  datatype Entry = Entry(name: string, games: int, totalScore: int, wins: int)

  /** A dictionary in insertion order, as an association list. */
  type Table = seq<Entry>

  // ---------------------------------------------------------------------------------------------
  // The observations a match list yields

  /**
    Both sides of a match, first player first, each with its own score. A side wins when its name
    equals the winner column, so in a resolved match between two different names exactly the side
    with the strictly higher score wins, and a draw credits neither unless a name is the draw label.
  */
  function SidesOf(m: Match): (sides: seq<Sighting>)
    ensures |sides| == 2
    ensures sides[0].name == m.player1 && sides[0].score == m.score1
    ensures sides[1].name == m.player2 && sides[1].score == m.score2
    ensures Resolved(m) && m.player1 != m.player2 ==>
      (sides[0].won <==> m.score1 > m.score2 || (m.score1 == m.score2 && m.player1 == DrawLabel)) &&
      (sides[1].won <==> m.score2 > m.score1 || (m.score1 == m.score2 && m.player2 == DrawLabel))
  {
    [Sighting(m.player1, m.score1, m.winner == m.player1),
     Sighting(m.player2, m.score2, m.winner == m.player2)]
  }

  function Sightings(matches: seq<Match>): (obs: seq<Sighting>)
    ensures |obs| == 2 * |matches|
  {
    if matches == [] then [] else Sightings(matches[..|matches| - 1]) + SidesOf(matches[|matches| - 1])
  }

  function Names(obs: seq<Sighting>): (names: seq<string>)
    ensures |names| == |obs|
  {
    if obs == [] then [] else Names(obs[..|obs| - 1]) + [obs[|obs| - 1].name]
  }

  // ---------------------------------------------------------------------------------------------
  // The tally

  function Keys(t: Table): (keys: seq<string>)
    ensures |keys| == |t|
    ensures forall i :: 0 <= i < |t| ==> keys[i] == t[i].name
  {
    if t == [] then [] else Keys(t[..|t| - 1]) + [t[|t| - 1].name]
  }

  /** Position of the first occurrence of `x`, or `|xs|` when it does not occur. */
  function FirstIndex(xs: seq<string>, x: string): (i: nat)
    ensures i <= |xs|
    ensures i < |xs| ==> xs[i] == x
    ensures forall j :: 0 <= j < i ==> xs[j] != x
  {
    if xs == [] then 0 else if xs[0] == x then 0 else 1 + FirstIndex(xs[1..], x)
  }

  /** Position of the first entry for `name`, or `|t|` when there is none. */
  function Find(t: Table, name: string): (i: nat)
    ensures i <= |t|
    ensures i < |t| ==> t[i].name == name
    ensures forall j :: 0 <= j < i ==> t[j].name != name
  {
    FirstIndex(Keys(t), name)
  }

  function Bump(e: Entry, s: Sighting): Entry
  {
    e.(games := e.games + 1, totalScore := e.totalScore + s.score, wins := e.wins + if s.won then 1 else 0)
  }

  /**
    One step of the loop: create a zero entry on first sighting of the name, then count one game,
    the side's own score and a win if the side won. Keys only ever grow at the end, and no other
    entry changes.
  */
  function Observe(t: Table, s: Sighting): (r: Table)
    ensures Keys(r) == if s.name in Keys(t) then Keys(t) else Keys(t) + [s.name]
    ensures forall j :: 0 <= j < |t| && t[j].name != s.name ==> r[j] == t[j]
  {
    var i := Find(t, s.name);
    var grown := if i == |t| then t + [Entry(s.name, 0, 0, 0)] else t;
    grown[i := Bump(grown[i], s)]
  }

  function Tally(obs: seq<Sighting>): Table
  {
    if obs == [] then [] else Observe(Tally(obs[..|obs| - 1]), obs[|obs| - 1])
  }

  /**
    The statistics dictionary built from all matches in the store. A player has an entry exactly
    when they play a side of some match; the keys are distinct; every entry's games, total score and
    wins equal the reference counts over that player's sightings; so each entry has at least one
    game and between zero and that many wins.
  */
  function Aggregate(matches: seq<Match>): (t: Table)
    ensures Keys(t) == FirstSeen(Names(Sightings(matches)))
  {
    TallyKeys(Sightings(matches));
    Tally(Sightings(matches))
  }

  lemma TallySnoc(obs: seq<Sighting>, s: Sighting)
    ensures Tally(obs + [s]) == Observe(Tally(obs), s)
  {
  }

  lemma SightingsSnoc(matches: seq<Match>, m: Match)
    ensures Sightings(matches + [m]) == Sightings(matches) + SidesOf(m)
  {
  }

  /** Tallying a match's two sides in turn, first player first. */
  lemma TallyMatch(matches: seq<Match>, m: Match)
    ensures Aggregate(matches + [m]) == Observe(Observe(Aggregate(matches), SidesOf(m)[0]), SidesOf(m)[1])
  {
    var obs := Sightings(matches);
    SightingsSnoc(matches, m);
    assert obs + SidesOf(m) == (obs + [SidesOf(m)[0]]) + [SidesOf(m)[1]];
    TallySnoc(obs + [SidesOf(m)[0]], SidesOf(m)[1]);
    TallySnoc(obs, SidesOf(m)[0]);
  }

  lemma AggregateStep(matches: seq<Match>, k: nat)
    requires k < |matches|
    ensures Aggregate(matches[..k + 1]) ==
      Observe(Observe(Aggregate(matches[..k]), SidesOf(matches[k])[0]), SidesOf(matches[k])[1])
  {
    assert matches[..k + 1] == matches[..k] + [matches[k]];
    TallyMatch(matches[..k], matches[k]);
  }

  /** The handler's nested loop over matches and their two sides. */
  method AggregateLoop(matches: seq<Match>) returns (t: Table)
    ensures t == Aggregate(matches)
    ensures WellFormed(t)
    ensures Total(t, Games) == 2 * |matches| && Total(t, Score) == MatchPoints(matches)
  {
    t := [];
    var k := 0;
    while k < |matches|
      invariant 0 <= k <= |matches|
      invariant t == Aggregate(matches[..k])
    {
      AggregateStep(matches, k);
      var sides := SidesOf(matches[k]);
      t := Observe(t, sides[0]);
      t := Observe(t, sides[1]);
      k := k + 1;
    }
    assert matches[..k] == matches;
    AggregateWellFormed(matches);
    AggregateConservation(matches);
  }

  // ---------------------------------------------------------------------------------------------
  // Reference definitions

  /** Names in order of first occurrence, later repeats dropped. */
  function FirstSeen(names: seq<string>): seq<string>
  {
    if names == [] then []
    else
      var seen := FirstSeen(names[..|names| - 1]);
      if names[|names| - 1] in seen then seen else seen + [names[|names| - 1]]
  }

  /** How many observations are of `name`. */
  function Count(obs: seq<Sighting>, name: string): nat
  {
    if obs == [] then 0
    else Count(obs[..|obs| - 1], name) + if obs[|obs| - 1].name == name then 1 else 0
  }

  /** Sum of the scores observed for `name`. */
  function ScoreOf(obs: seq<Sighting>, name: string): int
  {
    if obs == [] then 0
    else ScoreOf(obs[..|obs| - 1], name) + if obs[|obs| - 1].name == name then obs[|obs| - 1].score else 0
  }

  /** How many observations of `name` are wins. */
  function WinsOf(obs: seq<Sighting>, name: string): nat
  {
    if obs == [] then 0
    else WinsOf(obs[..|obs| - 1], name) + if obs[|obs| - 1].name == name && obs[|obs| - 1].won then 1 else 0
  }

  /** The counters of every entry that the table promises. */
  predicate WellFormed(t: Table)
  {
    && Distinct(Keys(t))
    && forall i :: 0 <= i < |t| ==> 1 <= t[i].games && 0 <= t[i].wins <= t[i].games
  }

  // ---------------------------------------------------------------------------------------------
  // Facts about the reference definitions

  lemma {:induction false} FirstSeenFacts(names: seq<string>)
    ensures Distinct(FirstSeen(names))
    ensures forall x :: x in FirstSeen(names) <==> x in names
  {
    if names != [] {
      var prefix := names[..|names| - 1];
      FirstSeenFacts(prefix);
      assert names == prefix + [names[|names| - 1]];
    }
  }

  lemma {:induction false} ReferenceFacts(obs: seq<Sighting>, name: string)
    ensures name in Names(obs) <==> Count(obs, name) >= 1
    ensures name !in Names(obs) ==> ScoreOf(obs, name) == 0 && WinsOf(obs, name) == 0
    ensures WinsOf(obs, name) <= Count(obs, name)
  {
    if obs != [] {
      ReferenceFacts(obs[..|obs| - 1], name);
    }
  }

  lemma ObserveCounters(t: Table, s: Sighting)
    requires Distinct(Keys(t))
    ensures forall j :: 0 <= j < |Observe(t, s)| && Observe(t, s)[j].name == s.name ==>
      Observe(t, s)[j] == Bump(if s.name in Keys(t) then t[Find(t, s.name)] else Entry(s.name, 0, 0, 0), s)
  {
  }

  /** The table's keys are the observed names in order of first sighting. */
  lemma {:induction false} TallyKeys(obs: seq<Sighting>)
    ensures Keys(Tally(obs)) == FirstSeen(Names(obs))
  {
    if obs != [] {
      var prefix := obs[..|obs| - 1];
      TallyKeys(prefix);
      assert Names(obs)[..|obs| - 1] == Names(prefix);
    }
  }

  predicate CountsAgree(t: Table, obs: seq<Sighting>)
  {
    forall j :: 0 <= j < |t| ==>
      && t[j].games == Count(obs, t[j].name)
      && t[j].totalScore == ScoreOf(obs, t[j].name)
      && t[j].wins == WinsOf(obs, t[j].name)
  }

  lemma ReferenceSnoc(obs: seq<Sighting>, s: Sighting, name: string)
    ensures Count(obs + [s], name) == Count(obs, name) + if s.name == name then 1 else 0
    ensures ScoreOf(obs + [s], name) == ScoreOf(obs, name) + if s.name == name then s.score else 0
    ensures WinsOf(obs + [s], name) == WinsOf(obs, name) + if s.name == name && s.won then 1 else 0
  {
  }

  lemma ObserveAgrees(t: Table, obs: seq<Sighting>, s: Sighting)
    requires CountsAgree(t, obs)
    requires Distinct(Keys(t))
    requires forall x :: x in Keys(t) <==> x in Names(obs)
    ensures CountsAgree(Observe(t, s), obs + [s])
  {
    var r := Observe(t, s);
    ReferenceFacts(obs, s.name);
    ObserveCounters(t, s);
    forall j | 0 <= j < |r|
      ensures r[j].games == Count(obs + [s], r[j].name)
      ensures r[j].totalScore == ScoreOf(obs + [s], r[j].name)
      ensures r[j].wins == WinsOf(obs + [s], r[j].name)
    {
      ReferenceSnoc(obs, s, r[j].name);
      if r[j].name != s.name {
        assert Keys(r)[j] == r[j].name;
        assert j < |t|;
      } else if s.name in Keys(t) {
        var i := Find(t, s.name);
        assert t[i].name == s.name;
      }
    }
  }

  lemma TallyKeySet(obs: seq<Sighting>)
    ensures Distinct(Keys(Tally(obs)))
    ensures forall x :: x in Keys(Tally(obs)) <==> x in Names(obs)
  {
    TallyKeys(obs);
    FirstSeenFacts(Names(obs));
  }

  /** Every entry's counters equal the reference counts over all observations of its name. */
  lemma {:induction false} TallyCounts(obs: seq<Sighting>)
    ensures CountsAgree(Tally(obs), obs)
  {
    if obs != [] {
      var prefix := obs[..|obs| - 1];
      var s := obs[|obs| - 1];
      assert obs == prefix + [s];
      assert Tally(obs) == Observe(Tally(prefix), s);
      TallyCounts(prefix);
      TallyKeySet(prefix);
      ObserveAgrees(Tally(prefix), prefix, s);
    }
  }

  /**
    One more match adds, to each name's reference counts, one game per side carrying that name, that
    side's own score, and a win per such side named as the winner.
  */
  lemma MatchAddsEachSide(matches: seq<Match>, m: Match, name: string)
    ensures var before := Sightings(matches);
      var after := Sightings(matches + [m]);
      && Count(after, name) == Count(before, name) + (if m.player1 == name then 1 else 0)
                                                   + (if m.player2 == name then 1 else 0)
      && ScoreOf(after, name) == ScoreOf(before, name) + (if m.player1 == name then m.score1 else 0)
                                                       + (if m.player2 == name then m.score2 else 0)
      && WinsOf(after, name) == WinsOf(before, name) + (if m.player1 == name && m.winner == name then 1 else 0)
                                                     + (if m.player2 == name && m.winner == name then 1 else 0)
  {
    var before := Sightings(matches);
    var sides := SidesOf(m);
    SightingsSnoc(matches, m);
    assert before + sides == (before + [sides[0]]) + [sides[1]];
    ReferenceSnoc(before, sides[0], name);
    ReferenceSnoc(before + [sides[0]], sides[1], name);
  }

  // ---------------------------------------------------------------------------------------------
  // Properties of the statistics table

  /**
    Keys are distinct, each player has at least one game and between zero and that many wins,
    so the average (total / games) never divides by zero and the win rate lies in [0, 100].
  */
  lemma AggregateWellFormed(matches: seq<Match>)
    ensures WellFormed(Aggregate(matches))
  {
    TallyWellFormed(Sightings(matches));
  }

  /** Exact contents: a player has an entry iff they appear on some side of some match. */
  lemma AggregateContents(matches: seq<Match>)
    ensures forall name :: name in Keys(Aggregate(matches)) <==> name in Names(Sightings(matches))
    ensures CountsAgree(Aggregate(matches), Sightings(matches))
  {
    TallyKeySet(Sightings(matches));
    TallyCounts(Sightings(matches));
  }

  /** The table built from any observations has distinct keys and sensible counters. */
  lemma TallyWellFormed(obs: seq<Sighting>)
    ensures WellFormed(Tally(obs))
  {
    var t := Tally(obs);
    TallyKeySet(obs);
    TallyCounts(obs);
    forall i | 0 <= i < |t|
      ensures 1 <= t[i].games && 0 <= t[i].wins <= t[i].games
    {
      assert Keys(t)[i] == t[i].name;
      ReferenceFacts(obs, t[i].name);
    }
  }

  // ---------------------------------------------------------------------------------------------
  // Conservation

  datatype Counter = Games | Score | Wins

  function Get(e: Entry, c: Counter): int
  {
    match c
    case Games => e.games
    case Score => e.totalScore
    case Wins => e.wins
  }

  /** What one observation adds to a counter. */
  function Gain(s: Sighting, c: Counter): int
  {
    match c
    case Games => 1
    case Score => s.score
    case Wins => if s.won then 1 else 0
  }

  /** A counter summed over all entries of a table. */
  function Total(t: Table, c: Counter): int
  {
    if t == [] then 0 else Total(t[..|t| - 1], c) + Get(t[|t| - 1], c)
  }

  /** What a run of observations adds to a counter, summed. */
  function Gained(obs: seq<Sighting>, c: Counter): int
  {
    if obs == [] then 0 else Gained(obs[..|obs| - 1], c) + Gain(obs[|obs| - 1], c)
  }

  lemma {:induction false} TotalUpdate(t: Table, i: nat, e: Entry, c: Counter)
    requires i < |t|
    ensures Total(t[i := e], c) == Total(t, c) - Get(t[i], c) + Get(e, c)
  {
    var u := t[i := e];
    assert u[..|u| - 1] == if i == |t| - 1 then t[..|t| - 1] else t[..|t| - 1][i := e];
    if i < |t| - 1 {
      TotalUpdate(t[..|t| - 1], i, e, c);
    }
  }

  lemma ObserveTotal(t: Table, s: Sighting, c: Counter)
    ensures Total(Observe(t, s), c) == Total(t, c) + Gain(s, c)
  {
    var i := Find(t, s.name);
    var grown := if i == |t| then t + [Entry(s.name, 0, 0, 0)] else t;
    if i == |t| {
      assert grown[..|t|] == t;
    }
    TotalUpdate(grown, i, Bump(grown[i], s), c);
  }

  lemma {:induction false} TallyTotal(obs: seq<Sighting>, c: Counter)
    ensures Total(Tally(obs), c) == Gained(obs, c)
  {
    if obs != [] {
      TallyTotal(obs[..|obs| - 1], c);
      ObserveTotal(Tally(obs[..|obs| - 1]), obs[|obs| - 1], c);
    }
  }

  /** Sum of both scores over all matches. */
  function MatchPoints(matches: seq<Match>): int
  {
    if matches == [] then 0
    else MatchPoints(matches[..|matches| - 1]) + matches[|matches| - 1].score1 + matches[|matches| - 1].score2
  }

  /** How many sides, over all matches, carry the name recorded as winner. */
  function WinningSides(matches: seq<Match>): nat
  {
    if matches == [] then 0
    else
      var m := matches[|matches| - 1];
      WinningSides(matches[..|matches| - 1]) + (if m.winner == m.player1 then 1 else 0)
                                             + (if m.winner == m.player2 then 1 else 0)
  }

  lemma {:induction false} SightingsGained(matches: seq<Match>)
    ensures Gained(Sightings(matches), Games) == 2 * |matches|
    ensures Gained(Sightings(matches), Score) == MatchPoints(matches)
    ensures Gained(Sightings(matches), Wins) == WinningSides(matches)
  {
    if matches != [] {
      var prefix := matches[..|matches| - 1];
      var m := matches[|matches| - 1];
      var obs := Sightings(prefix);
      SightingsGained(prefix);
      var sides := SidesOf(m);
      assert Sightings(matches) == (obs + [sides[0]]) + [sides[1]];
      assert (obs + [sides[0]] + [sides[1]])[..|obs| + 1] == obs + [sides[0]];
      assert (obs + [sides[0]])[..|obs|] == obs;
    }
  }

  /**
    Aggregating n matches counts 2n games in all, totals exactly the scores of both sides of every
    match, and counts exactly one win per side named as the winner.
  */
  lemma {:induction false} AggregateConservation(matches: seq<Match>)
    ensures Total(Aggregate(matches), Games) == 2 * |matches|
    ensures Total(Aggregate(matches), Score) == MatchPoints(matches)
    ensures Total(Aggregate(matches), Wins) == WinningSides(matches)
  {
    TallyTotal(Sightings(matches), Games);
    TallyTotal(Sightings(matches), Score);
    TallyTotal(Sightings(matches), Wins);
    SightingsGained(matches);
  }

  /** Matches whose scores differ. */
  function Decisive(matches: seq<Match>): nat
  {
    if matches == [] then 0
    else
      var m := matches[|matches| - 1];
      Decisive(matches[..|matches| - 1]) + if m.score1 != m.score2 then 1 else 0
  }

  predicate NamesUnambiguous(m: Match)
  {
    m.player1 != m.player2 && m.player1 != DrawLabel && m.player2 != DrawLabel
  }

  /**
    When no match pits a player against a namesake and nobody is called by the draw label, the
    wins handed out are exactly one per decided match and none for a draw.
  */
  lemma {:induction false} WinsCountDecidedMatches(matches: seq<Match>)
    requires forall i :: 0 <= i < |matches| ==> Resolved(matches[i]) && NamesUnambiguous(matches[i])
    ensures WinningSides(matches) == Decisive(matches)
  {
    if matches != [] {
      WinsCountDecidedMatches(matches[..|matches| - 1]);
    }
  }

  /** A decided match between two players of the same name credits that name twice. */
  lemma NamesakeDecided(m: Match)
    requires Resolved(m) && m.player1 == m.player2 && m.score1 != m.score2
    ensures SidesOf(m)[0].won && SidesOf(m)[1].won
  {
  }

  /** A draw credits a side with a win only when that side's name is the draw label itself. */
  lemma DrawCreditsOnlyTheLabel(m: Match)
    requires Resolved(m) && m.score1 == m.score2
    ensures SidesOf(m)[0].won <==> m.player1 == DrawLabel
    ensures SidesOf(m)[1].won <==> m.player2 == DrawLabel
  {
  }

  // ---------------------------------------------------------------------------------------------
  // Key order

  lemma {:induction false} FirstIndexFacts(xs: seq<string>, x: string, y: string)
    ensures FirstIndex(xs, x) <= |xs|
    ensures FirstIndex(xs, x) < |xs| <==> x in xs
    ensures x in xs ==> FirstIndex(xs + [y], x) == FirstIndex(xs, x)
    ensures x !in xs && x == y ==> FirstIndex(xs + [y], x) == |xs|
  {
    if xs != [] {
      FirstIndexFacts(xs[1..], x, y);
      assert (xs + [y])[1..] == xs[1..] + [y];
    }
  }

  /** First-seen order lists names by increasing position of their first occurrence. */
  lemma {:induction false} FirstSeenOrder(names: seq<string>)
    ensures forall i :: 0 <= i < |FirstSeen(names)| ==> FirstIndex(names, FirstSeen(names)[i]) < |names|
    ensures forall i, j :: 0 <= i < j < |FirstSeen(names)| ==>
      FirstIndex(names, FirstSeen(names)[i]) < FirstIndex(names, FirstSeen(names)[j])
  {
    if names != [] {
      var prefix := names[..|names| - 1];
      var x := names[|names| - 1];
      assert names == prefix + [x];
      var d := FirstSeen(prefix);
      FirstSeenOrder(prefix);
      FirstSeenFacts(prefix);
      forall i | 0 <= i < |d| ensures FirstIndex(names, d[i]) == FirstIndex(prefix, d[i]) {
        FirstIndexFacts(prefix, d[i], x);
      }
      FirstIndexFacts(prefix, x, x);
    }
  }

  /**
    The dictionary's keys (the chart's x-axis order) are the players in order of first sighting,
    first player before second player within a match, each exactly once.
  */
  lemma {:induction false} AggregateKeyOrder(matches: seq<Match>)
    ensures var keys := Keys(Aggregate(matches));
      var names := Names(Sightings(matches));
      && Distinct(keys)
      && (forall x :: x in keys <==> x in names)
      && (forall i, j :: 0 <= i < j < |keys| ==> FirstIndex(names, keys[i]) < FirstIndex(names, keys[j]))
  {
    var names := Names(Sightings(matches));
    TallyKeys(Sightings(matches));
    FirstSeenFacts(names);
    FirstSeenOrder(names);
  }

  lemma {:induction false} SightingsAppend(matches: seq<Match>, more: seq<Match>)
    ensures Sightings(matches + more) == Sightings(matches) + Sightings(more)
  {
    if more != [] {
      var init := more[..|more| - 1];
      assert (matches + more)[..|matches + more| - 1] == matches + init;
      SightingsAppend(matches, init);
    } else {
      assert matches + more == matches;
    }
  }

  lemma {:induction false} NamesAppend(a: seq<Sighting>, b: seq<Sighting>)
    ensures Names(a + b) == Names(a) + Names(b)
  {
    if b != [] {
      assert (a + b)[..|a + b| - 1] == a + b[..|b| - 1];
      NamesAppend(a, b[..|b| - 1]);
    } else {
      assert a + b == a;
    }
  }

  lemma {:induction false} FirstSeenPrefix(xs: seq<string>, ys: seq<string>)
    ensures FirstSeen(xs) <= FirstSeen(xs + ys)
  {
    if ys != [] {
      assert (xs + ys)[..|xs + ys| - 1] == xs + ys[..|ys| - 1];
      FirstSeenPrefix(xs, ys[..|ys| - 1]);
    } else {
      assert xs + ys == xs;
    }
  }

  /** Later matches only append new players at the end: existing keys are never reordered. */
  lemma {:induction false} AggregateKeysStable(matches: seq<Match>, more: seq<Match>)
    ensures Keys(Aggregate(matches)) <= Keys(Aggregate(matches + more))
  {
    SightingsAppend(matches, more);
    NamesAppend(Sightings(matches), Sightings(more));
    TallyKeys(Sightings(matches));
    TallyKeys(Sightings(matches + more));
    FirstSeenPrefix(Names(Sightings(matches)), Names(Sightings(more)));
  }

  // ---------------------------------------------------------------------------------------------
  // What the chart plots

  /** A quotient kept as numerator and denominator; the chart divides in floating point. */
  datatype Ratio = Ratio(num: int, den: int)

  /** One x-axis category: the player, their average score, their win percentage. */
  datatype Point = Point(player: string, average: Ratio, winRate: Ratio)

  function ChartSeries(t: Table): (points: seq<Point>)
    requires WellFormed(t)
    ensures |points| == |t|
    ensures forall i :: 0 <= i < |t| ==>
      && points[i].player == t[i].name
      && points[i].average == Ratio(t[i].totalScore, t[i].games)
      && points[i].winRate == Ratio(100 * t[i].wins, t[i].games)
      && points[i].average.den >= 1 && points[i].winRate.den >= 1
      && 0 <= points[i].winRate.num <= 100 * points[i].winRate.den
  {
    seq(|t|, i requires 0 <= i < |t| => Point(t[i].name, Ratio(t[i].totalScore, t[i].games),
                                                Ratio(100 * t[i].wins, t[i].games)))
  }

  /** A first sighting appends a fresh entry holding just that observation. */
  lemma ObserveNew(t: Table, s: Sighting)
    requires s.name !in Keys(t)
    ensures Observe(t, s) == t + [Bump(Entry(s.name, 0, 0, 0), s)]
  {
  }

  /** A repeat sighting updates the player's entry in place. */
  lemma ObserveExisting(t: Table, s: Sighting, i: nat)
    requires i < |t| && t[i].name == s.name
    requires forall j :: 0 <= j < i ==> t[j].name != s.name
    ensures Observe(t, s) == t[i := Bump(t[i], s)]
  {
  }

  /** A 10-7 win of A over B: each plays one game, A is credited the win. */
  lemma OneMatchExample(m1: Match)
    requires m1.player1 == "A" && m1.player2 == "B" && m1.score1 == 10 && m1.score2 == 7
    requires Resolved(m1)
    ensures Aggregate([m1]) == [Entry("A", 1, 10, 1), Entry("B", 1, 7, 0)]
  {
    TallyMatch([], m1);
    assert [] + [m1] == [m1];
    ObserveNew([], Sighting("A", 10, true));
    ObserveNew([Entry("A", 1, 10, 1)], Sighting("B", 7, false));
  }

  /** The 5-5 draw of B against A, tallied onto the table left by the first match. */
  lemma DrawStep(t2: Table, m2: Match)
    requires t2 == [Entry("A", 1, 10, 1), Entry("B", 1, 7, 0)]
    requires m2.player1 == "B" && m2.player2 == "A" && m2.score1 == 5 && m2.score2 == 5
    requires Resolved(m2)
    ensures Observe(Observe(t2, SidesOf(m2)[0]), SidesOf(m2)[1]) == [Entry("A", 2, 15, 1), Entry("B", 2, 12, 0)]
  {
    var t3 := [Entry("A", 1, 10, 1), Entry("B", 2, 12, 0)];
    var drawB := Sighting("B", 5, false);
    var drawA := Sighting("A", 5, false);
    assert SidesOf(m2) == [drawB, drawA];
    assert Observe(t2, drawB) == t3 by {
      ObserveExisting(t2, drawB, 1);
    }
    ObserveExisting(t3, drawA, 0);
  }

  /**
    The two-match example: A beats B 10-7, then B and A draw 5-5 with the sides swapped. Both play
    two games; the draw credits nobody, so A has one win and B none.
  */
  lemma TwoMatchExample(matches: seq<Match>)
    requires |matches| == 2
    requires matches[0].player1 == "A" && matches[0].player2 == "B"
    requires matches[0].score1 == 10 && matches[0].score2 == 7
    requires matches[1].player1 == "B" && matches[1].player2 == "A"
    requires matches[1].score1 == 5 && matches[1].score2 == 5
    requires Resolved(matches[0]) && Resolved(matches[1])
    ensures Aggregate(matches) == [Entry("A", 2, 15, 1), Entry("B", 2, 12, 0)]
  {
    var first := [matches[0]];
    assert first + [matches[1]] == matches;
    OneMatchExample(matches[0]);
    TallyMatch(first, matches[1]);
    DrawStep(Aggregate(first), matches[1]);
  }
}
