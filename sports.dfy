/** The sports aggregator of frontend/src/services/sportsService.ts: for each of the
    four tracked teams, the scoreboard events that name the team, the most recent
    of them turned into a game row, or one of two placeholder rows. */
module Sports {
  import opened Wrappers
  import opened Upstream
  import Js
  import Seqs

  // ---------------------------------------------------------------------
  // Team configuration

  /** `Team`: display name, the scoreboard's sport and league keys, an emoji logo,
      and the lower-case terms that identify the team among competitors. */
  datatype TeamConfig = TeamConfig(name: string, sport: string, league: string, logo: string, searchTerms: seq<string>)

  /** `teams`, in display order. */
  const Teams: seq<TeamConfig> := [
    TeamConfig("Bruins", "hockey", "nhl", "\U{1F3D2}", ["boston bruins", "bruins"]),
    TeamConfig("Red Sox", "baseball", "mlb", "\U{26BE}", ["boston red sox", "red sox"]),
    TeamConfig("Patriots", "football", "nfl", "\U{1F3C8}", ["new england patriots", "patriots"]),
    TeamConfig("Celtics", "basketball", "nba", "\U{1F3C0}", ["boston celtics", "celtics"])
  ]

  // ---------------------------------------------------------------------
  // The scoreboard body and the output row

  /** `competitor.team`: the names the scoreboard gives a competing team. */
  datatype TeamInfo = TeamInfo(displayName: Option<string>, shortDisplayName: Option<string>)

  /** One side of a competition; `homeAway` is "home" or "away", `score` a decimal string. */
  datatype Competitor = Competitor(homeAway: string, team: Option<TeamInfo>, score: Option<string>)

  datatype Competition = Competition(competitors: Option<seq<Competitor>>)

  /** A scoreboard event. `timestamp` is `new Date(date).getTime()`, the key of the sort;
      `statusDescription` is `status.type.description`. */
  datatype Event = Event(competitions: Option<seq<Competition>>, date: Option<string>, timestamp: int, statusDescription: Option<string>)

  datatype Scoreboard = Scoreboard(events: Option<seq<Event>>)

  /** `Game`: one row of the scoreboard page. */
  datatype Game = Game(
    team: string,
    opponent: string,
    teamScore: Js.Number,
    opponentScore: Js.Number,
    date: string,
    status: string,
    logo: string,
    sport: string)

  // ---------------------------------------------------------------------
  // Which events concern a team

  /** Some search term, lowered, occurs in the lowered name. */
  predicate MatchesTerm(terms: seq<string>, name: string) {
    exists t :: t in terms && Js.Includes(Js.ToLower(name), Js.ToLower(t))
  }

  /** `team?.displayName?.toLowerCase().includes(term.toLowerCase())` for some term. */
  predicate IsTeam(terms: seq<string>, info: Option<TeamInfo>) {
    info.Some? && info.value.displayName.Some? && MatchesTerm(terms, info.value.displayName.value)
  }

  /** `event.competitions?.[0]?.competitors?.some(comp => ...)`. */
  predicate Mentions(terms: seq<string>, e: Event)
    ensures e.competitions.None? || e.competitions.value == [] ==> !Mentions(terms, e)
    ensures terms == [] ==> !Mentions(terms, e)
  {
    && e.competitions.Some? && |e.competitions.value| > 0
    && e.competitions.value[0].competitors.Some?
    && exists c :: c in e.competitions.value[0].competitors.value && IsTeam(terms, c.team)
  }

  function MentionsTeam(terms: seq<string>): Event -> bool {
    e => Mentions(terms, e)
  }

  /** `data.events.filter(...)`: the events that mention the team, in scoreboard order. */
  function KeptEvents(terms: seq<string>, events: seq<Event>): (kept: seq<Event>)
    ensures |kept| <= |events|
    ensures forall i :: 0 <= i < |kept| ==> Mentions(terms, kept[i])
  {
    Seqs.Filter(MentionsTeam(terms), events)
  }

  /** An event is kept exactly when it is on the scoreboard and mentions the team,
      and the kept events keep their scoreboard order. */
  lemma KeptEventsExactly(terms: seq<string>, events: seq<Event>)
    ensures forall e :: e in KeptEvents(terms, events) <==> e in events && Mentions(terms, e)
    ensures Seqs.IsSubsequence(KeptEvents(terms, events), events)
    ensures KeptEvents(terms, events) == [] <==> forall i :: 0 <= i < |events| ==> !Mentions(terms, events[i])
  {
    forall e ensures e in KeptEvents(terms, events) <==> e in events && Mentions(terms, e) {
      Seqs.FilterMember(MentionsTeam(terms), events, e);
    }
    Seqs.FilterIsSubsequence(MentionsTeam(terms), events);
    Seqs.FilterEmpty(MentionsTeam(terms), events);
  }

  // ---------------------------------------------------------------------
  // The most recent event: a stable sort by descending date, then element 0

  predicate SortedByDateDesc(s: seq<Event>) {
    forall i, j :: 0 <= i < j < |s| ==> s[i].timestamp >= s[j].timestamp
  }

  /** Place `e` before the first element that is not later than it, so that `e`
      precedes the equal-dated elements that followed it in the input. */
  function InsertByDate(e: Event, sorted: seq<Event>): (r: seq<Event>)
    ensures |r| == |sorted| + 1
  {
    if sorted == [] || sorted[0].timestamp <= e.timestamp then [e] + sorted
    else [sorted[0]] + InsertByDate(e, sorted[1..])
  }

  /** Insertion adds exactly the one event. */
  lemma {:induction false} InsertByDatePermutes(e: Event, sorted: seq<Event>)
    ensures multiset(InsertByDate(e, sorted)) == multiset(sorted) + multiset{e}
    ensures forall x :: x in InsertByDate(e, sorted) <==> x == e || x in sorted
  {
    if sorted != [] && sorted[0].timestamp > e.timestamp {
      InsertByDatePermutes(e, sorted[1..]);
      assert sorted == [sorted[0]] + sorted[1..];
    }
  }

  /** `events.sort((a, b) => date(b) - date(a))`, a stable sort, latest first. */
  function SortByDateDesc(events: seq<Event>): (r: seq<Event>)
    ensures |r| == |events|
    ensures multiset(r) == multiset(events)
  {
    if events == [] then []
    else
      var rest := SortByDateDesc(events[1..]);
      InsertByDatePermutes(events[0], rest);
      assert events == [events[0]] + events[1..];
      InsertByDate(events[0], rest)
  }

  lemma {:induction false} InsertKeepsSorted(e: Event, sorted: seq<Event>)
    requires SortedByDateDesc(sorted)
    ensures SortedByDateDesc(InsertByDate(e, sorted))
  {
    if sorted != [] && sorted[0].timestamp > e.timestamp {
      InsertKeepsSorted(e, sorted[1..]);
      InsertByDatePermutes(e, sorted[1..]);
      var r := InsertByDate(e, sorted);
      var tail := InsertByDate(e, sorted[1..]);
      assert r == [sorted[0]] + tail;
      forall j | 0 < j < |r| ensures r[0].timestamp >= r[j].timestamp {
        assert r[j] == tail[j - 1];
        assert r[j] in tail;
        if r[j] != e {
          var k :| 0 <= k < |sorted[1..]| && sorted[1..][k] == r[j];
          assert sorted[k + 1] == r[j];
        }
      }
    }
  }

  /** The sort is a permutation of its input ordered latest first. */
  lemma {:induction false} SortIsSorted(events: seq<Event>)
    ensures SortedByDateDesc(SortByDateDesc(events))
    ensures multiset(SortByDateDesc(events)) == multiset(events)
  {
    if events != [] {
      SortIsSorted(events[1..]);
      InsertKeepsSorted(events[0], SortByDateDesc(events[1..]));
    }
  }

  /** The position of the first event with the latest date: no event is later,
      and every event before it is strictly earlier. */
  function FirstLatest(events: seq<Event>): (k: nat)
    requires |events| > 0
    ensures k < |events|
    ensures forall j :: 0 <= j < |events| ==> events[j].timestamp <= events[k].timestamp
    ensures forall j :: 0 <= j < k ==> events[j].timestamp < events[k].timestamp
  {
    if |events| == 1 then 0
    else
      var j := FirstLatest(events[1..]);
      assert forall i :: 1 <= i < |events| ==> events[i] == events[1..][i - 1];
      if events[0].timestamp >= events[j + 1].timestamp then 0 else j + 1
  }

  /** Element 0 of the stable descending sort is the first event with the latest date. */
  lemma {:induction false} SortHeadIsFirstLatest(events: seq<Event>)
    requires |events| > 0
    ensures SortByDateDesc(events)[0] == events[FirstLatest(events)]
  {
    if |events| > 1 {
      SortHeadIsFirstLatest(events[1..]);
    }
  }

  /** Inserting `x` into `s` puts it after the prefix of strictly later events. */
  lemma {:induction false} InsertAfterLater(x: Event, s: seq<Event>, k: nat)
    requires k <= |s|
    requires forall m :: 0 <= m < k ==> s[m].timestamp > x.timestamp
    requires k == |s| || s[k].timestamp <= x.timestamp
    ensures InsertByDate(x, s) == s[..k] + [x] + s[k..]
  {
    if k == 0 {
      assert s[..0] + [x] + s[0..] == [x] + s;
    } else {
      var rest := s[1..];
      assert forall m :: 0 <= m < k - 1 ==> rest[m].timestamp > x.timestamp by {
        forall m | 0 <= m < k - 1 ensures rest[m].timestamp > x.timestamp {
          assert rest[m] == s[m + 1];
        }
      }
      assert k - 1 == |rest| || rest[k - 1].timestamp <= x.timestamp;
      InsertAfterLater(x, rest, k - 1);
      assert InsertByDate(x, s) == [s[0]] + InsertByDate(x, rest);
      Seqs.ConsSplit(s, k - 1, x);
    }
  }

  /** One step of the insertion sort: `a[i]` moves right past the strictly later events
      of the suffix after it, which shift one place left. */
  method PlaceEvent(a: array<Event>, i: nat)
    requires i < a.Length
    modifies a
    ensures a[..i] == old(a[..i])
    ensures a[i..] == InsertByDate(old(a[i]), old(a[i + 1..]))
  {
    ghost var o := a[..];
    var x := a[i];
    var j := ShiftLater(a, i, x);
    a[j] := x;
    ShiftedInsert(o, a[..], i, j, x);
    ghost var s := o[i + 1..];
    forall m | 0 <= m < j - i ensures s[m].timestamp > x.timestamp {
      assert s[m] == o[i + 1 + m];
    }
    InsertAfterLater(x, s, j - i);
  }

  /** The loop of `PlaceEvent`: the events after `i` that are strictly later than `x` move
      one place left; `j` is the place left free for `x`. */
  method ShiftLater(a: array<Event>, i: nat, x: Event) returns (j: nat)
    requires i < a.Length
    modifies a
    ensures i <= j < a.Length
    ensures forall m :: 0 <= m < i ==> a[m] == old(a[m])
    ensures forall m :: i <= m < j ==> a[m] == old(a[m + 1])
    ensures forall m :: j < m < a.Length ==> a[m] == old(a[m])
    ensures forall m :: i < m <= j ==> old(a[m]).timestamp > x.timestamp
    ensures j + 1 == a.Length || old(a[j + 1]).timestamp <= x.timestamp
  {
    var n := a.Length;
    j := i;
    while j + 1 < n && a[j + 1].timestamp > x.timestamp
      invariant i <= j < n
      invariant forall m :: 0 <= m < i ==> a[m] == old(a[m])
      invariant forall m :: i <= m < j ==> a[m] == old(a[m + 1])
      invariant forall m :: j < m < n ==> a[m] == old(a[m])
      invariant forall m :: i < m <= j ==> old(a[m]).timestamp > x.timestamp
    {
      a[j] := a[j + 1];
      j := j + 1;
    }
  }

  /** The array after `PlaceEvent`'s loop, as sequences: the events between `i` and `j`
      moved one place left and `x` written at `j`. */
  lemma ShiftedInsert(o: seq<Event>, r: seq<Event>, i: nat, j: nat, x: Event)
    requires |r| == |o| && i <= j < |o|
    requires forall m :: 0 <= m < i ==> r[m] == o[m]
    requires forall m :: i <= m < j ==> r[m] == o[m + 1]
    requires forall m :: j < m < |o| ==> r[m] == o[m]
    requires r[j] == x
    ensures r[..i] == o[..i]
    ensures r[i..] == o[i + 1..][..j - i] + [x] + o[i + 1..][j - i..]
  {
    var s := o[i + 1..];
    forall m | 0 <= m < |r| - i ensures r[i..][m] == (s[..j - i] + [x] + s[j - i..])[m] {
      if m < j - i {
        assert r[i + m] == o[i + m + 1];
      } else if m > j - i {
        assert r[i + m] == o[i + m];
      }
    }
  }

  /** `bostonEvents.sort((a, b) => date(b) - date(a))` on the array itself: an insertion
      sort from the right end, each event placed before the first event not later than it. */
  method SortLatestFirst(a: array<Event>)
    modifies a
    ensures a[..] == SortByDateDesc(old(a[..]))
  {
    ghost var original := a[..];
    var i := a.Length;
    while i > 0
      invariant 0 <= i <= a.Length
      invariant a[..i] == original[..i]
      invariant a[i..] == SortByDateDesc(original[i..])
    {
      i := i - 1;
      SortStep(original, i);
      assert a[i] == original[i] && a[..i] == original[..i] by {
        assert a[..i + 1][i] == original[..i + 1][i];
        assert a[..i + 1][..i] == original[..i + 1][..i];
      }
      PlaceEvent(a, i);
    }
    assert a[0..] == a[..] && original[0..] == original;
  }

  /** Sorting a suffix is inserting its first event into the sorted rest. */
  lemma SortStep(s: seq<Event>, i: nat)
    requires i < |s|
    ensures SortByDateDesc(s[i..]) == InsertByDate(s[i], SortByDateDesc(s[i + 1..]))
  {
    assert s[i..][0] == s[i] && s[i..][1..] == s[i + 1..];
  }

  /** `bostonEvents.sort(...)[0]`, with the filtered events copied into a fresh array
      and sorted there: the first event with the latest date. */
  method MostRecent(kept: seq<Event>) returns (e: Event)
    requires |kept| > 0
    ensures e == kept[FirstLatest(kept)]
    ensures e in kept && forall j :: 0 <= j < |kept| ==> kept[j].timestamp <= e.timestamp
  {
    var a := new Event[|kept|](i requires 0 <= i < |kept| => kept[i]);
    assert a[..] == kept;
    SortLatestFirst(a);
    SortHeadIsFirstLatest(kept);
    e := a[0];
  }

  // ---------------------------------------------------------------------
  // extractGameData

  /** `competitors.find(c => c.homeAway === side)`. */
  function FindSide(cs: seq<Competitor>, side: string): (r: Option<Competitor>)
    ensures r.Some? ==> r.value in cs && r.value.homeAway == side
    ensures r.None? ==> forall i :: 0 <= i < |cs| ==> cs[i].homeAway != side
  {
    if cs == [] then None
    else if cs[0].homeAway == side then Some(cs[0])
    else
      var r := FindSide(cs[1..], side);
      assert forall c :: c in cs[1..] ==> c in cs;
      assert forall k :: 1 <= k < |cs| ==> cs[k] == cs[1..][k - 1];
      r
  }

  /** `find` stops at the first competitor on the side: it is the one returned. */
  lemma {:induction false} FindSideFirst(cs: seq<Competitor>, side: string, k: nat)
    requires k < |cs| && cs[k].homeAway == side
    requires forall j :: 0 <= j < k ==> cs[j].homeAway != side
    ensures FindSide(cs, side) == Some(cs[k])
  {
    if k > 0 {
      FindSideFirst(cs[1..], side, k - 1);
    }
  }

  /** `opponent?.team?.shortDisplayName || opponent?.team?.displayName || 'TBD'`. */
  function OpponentName(opponent: Option<Competitor>): (r: string)
    ensures r != ""
    ensures opponent.None? || opponent.value.team.None? ==> r == "TBD"
    ensures opponent.Some? && opponent.value.team.Some? ==> (
      var info := opponent.value.team.value;
      && (Js.Truthy(info.shortDisplayName) ==> r == info.shortDisplayName.value)
      && (!Js.Truthy(info.shortDisplayName) && Js.Truthy(info.displayName) ==> r == info.displayName.value)
      && (!Js.Truthy(info.shortDisplayName) && !Js.Truthy(info.displayName) ==> r == "TBD"))
  {
    if opponent.Some? && opponent.value.team.Some? then
      var info := opponent.value.team.value;
      var options := [info.shortDisplayName, info.displayName];
      assert options[0] == info.shortDisplayName && options[1] == info.displayName;
      Js.FirstTruthy(options, "TBD")
    else "TBD"
  }

  /** `parseInt(side?.score || '0')`: a missing or empty score is 0, a digit string its value. */
  function Score(side: Option<Competitor>): (n: Js.Number)
    ensures side.None? || !Js.Truthy(side.value.score) ==> n == Js.Num(0)
    ensures side.Some? && Js.Truthy(side.value.score) && Js.AllDigits(side.value.score.value)
            ==> n == Js.Num(Js.DigitsValue(side.value.score.value))
  {
    if side.Some? && Js.Truthy(side.value.score) then
      var text := side.value.score.value;
      if Js.AllDigits(text) then
        Js.ParseIntDigits(text);
        Js.ParseInt(text)
      else Js.ParseInt(text)
    else
      var zero := "0";
      Js.ParseIntZero(zero);
      Js.ParseInt(zero)
  }

  /** `extractGameData`: the home side is this team when its display name matches a
      search term; otherwise the away side is. The other side is the opponent. */
  function ExtractGameData(e: Event, team: TeamConfig, now: string): (g: Game)
    requires Mentions(team.searchTerms, e)
    ensures g.team == team.name && g.logo == team.logo && g.sport == team.sport
    ensures g.date == Js.Or(e.date, now)
    ensures g.status == Js.Or(e.statusDescription, "Scheduled") && g.status != ""
    ensures
      var cs := e.competitions.value[0].competitors.value;
      var home, away := FindSide(cs, "home"), FindSide(cs, "away");
      if home.Some? && IsTeam(team.searchTerms, home.value.team)
      then g.teamScore == Score(home) && g.opponentScore == Score(away) && g.opponent == OpponentName(away)
      else g.teamScore == Score(away) && g.opponentScore == Score(home) && g.opponent == OpponentName(home)
  {
    var cs := e.competitions.value[0].competitors.value;
    var home := FindSide(cs, "home");
    var away := FindSide(cs, "away");
    var homeIsTeam := home.Some? && IsTeam(team.searchTerms, home.value.team);
    var ours := if homeIsTeam then home else away;
    var theirs := if homeIsTeam then away else home;
    Game(team.name, OpponentName(theirs), Score(ours), Score(theirs),
         Js.Or(e.date, now), Js.Or(e.statusDescription, "Scheduled"), team.logo, team.sport)
  }

  // ---------------------------------------------------------------------
  // One row per team

  /** The row when no scoreboard event names the team. */
  function NoRecentGame(team: TeamConfig, now: string): (g: Game)
    ensures g.team == team.name && g.logo == team.logo && g.sport == team.sport && g.date == now
    ensures g.opponent == "No recent game" && g.status == "No games in last 7 days"
    ensures g.teamScore == Js.Num(0) && g.opponentScore == Js.Num(0)
  {
    Game(team.name, "No recent game", Js.Num(0), Js.Num(0), now, "No games in last 7 days", team.logo, team.sport)
  }

  /** The row when the team's request failed. */
  function Unavailable(team: TeamConfig, now: string): (g: Game)
    ensures g.team == team.name && g.logo == team.logo && g.sport == team.sport && g.date == now
    ensures g.opponent == "Data unavailable" && g.status == "Error loading"
    ensures g.teamScore == Js.Num(0) && g.opponentScore == Js.Num(0)
  {
    Game(team.name, "Data unavailable", Js.Num(0), Js.Num(0), now, "Error loading", team.logo, team.sport)
  }

  /** `data.events?.filter(...)`, with an absent event list giving nothing. */
  function KeptOf(team: TeamConfig, board: Scoreboard): seq<Event> {
    if board.events.Some? then KeptEvents(team.searchTerms, board.events.value) else []
  }

  /** What one team's `try` yields: a failed request gives the 'Error loading' row; no kept
      event gives the 'No games in last 7 days' row; otherwise the game of the first event
      with the latest date. `now` is `new Date().toISOString()`. */
  function TeamRow(team: TeamConfig, outcome: Fetched<Scoreboard>, now: string): (g: Game)
    ensures g.team == team.name && g.logo == team.logo && g.sport == team.sport
    ensures !outcome.Ok? ==> g == Unavailable(team, now)
    ensures outcome.Ok? ==> (
      var kept := KeptOf(team, outcome.payload);
      && (kept == [] <==> outcome.payload.events.None? ||
                          forall i :: 0 <= i < |outcome.payload.events.value| ==> !Mentions(team.searchTerms, outcome.payload.events.value[i]))
      && (kept == [] ==> g == NoRecentGame(team, now))
      && (kept != [] ==> g == ExtractGameData(kept[FirstLatest(kept)], team, now)))
  {
    match outcome
    case NotOk => Unavailable(team, now)
    case Threw(_) => Unavailable(team, now)
    case Ok(board) =>
      var kept := KeptOf(team, board);
      var g := if kept == [] then NoRecentGame(team, now) else ExtractGameData(kept[FirstLatest(kept)], team, now);
      if board.events.Some? then
        KeptEventsExactly(team.searchTerms, board.events.value);
        g
      else g
  }

  /** The per-team `try`/`catch` of `getSportsScores`, step by step: filter, sort in place, extract. */
  method ScoreTeam(team: TeamConfig, outcome: Fetched<Scoreboard>, now: string) returns (g: Game)
    ensures g == TeamRow(team, outcome, now)
  {
    if !outcome.Ok? {
      return Unavailable(team, now);
    }
    var kept := KeptOf(team, outcome.payload);
    if kept == [] {
      return NoRecentGame(team, now);
    }
    var latest := MostRecent(kept);
    g := ExtractGameData(latest, team, now);
  }

  /** `getSportsScores`, given each team's scoreboard outcome in `teams` order:
      exactly one row per team, in configuration order, whatever failed. */
  method GetSportsScores(outcomes: seq<Fetched<Scoreboard>>, now: string) returns (rows: seq<Game>)
    requires |outcomes| == |Teams|
    ensures |rows| == |Teams| == 4
    ensures forall i :: 0 <= i < |Teams| ==> rows[i] == TeamRow(Teams[i], outcomes[i], now)
    ensures forall i :: 0 <= i < |Teams| ==>
              rows[i].team == Teams[i].name && rows[i].logo == Teams[i].logo && rows[i].sport == Teams[i].sport
    ensures rows[0].team == "Bruins" && rows[1].team == "Red Sox" && rows[2].team == "Patriots" && rows[3].team == "Celtics"
  {
    rows := [];
    for i := 0 to |Teams|
      invariant |rows| == i
      invariant forall k :: 0 <= k < i ==> rows[k] == TeamRow(Teams[k], outcomes[k], now)
    {
      var g := ScoreTeam(Teams[i], outcomes[i], now);
      rows := rows + [g];
    }
  }

  // ---------------------------------------------------------------------
  // The date window of the scoreboard request

  /** Two decimal digits of `n`, tens first: `String(n).padStart(2, '0')` for a month or a
      day, as `Pad2IsPadStart` shows. */
  function Pad2(n: nat): (r: string)
    requires n < 100
    ensures |r| == 2 && Js.AllDigits(r) && Js.DigitsValue(r) == n
  {
    var r := [Js.DigitChar(n / 10), Js.DigitChar(n % 10)];
    Js.TwoDigitValue(r);
    r
  }

  /** `Pad2` is `String(n).padStart(2, '0')`. */
  lemma Pad2IsPadStart(n: nat)
    requires n < 100
    ensures Pad2(n) == Js.PadStart(Js.NatToString(n), 2, '0')
  {
    Js.TwoDigits(n);
    var p := Js.PadStart(Js.NatToString(n), 2, '0');
    TwoDigitsEqual(Pad2(n), p);
  }

  /** Two two-digit strings with the same value are the same string. */
  lemma TwoDigitsEqual(a: string, b: string)
    requires |a| == 2 && |b| == 2 && Js.AllDigits(a) && Js.AllDigits(b)
    requires Js.DigitsValue(a) == Js.DigitsValue(b)
    ensures a == b
  {
    Js.TwoDigitValue(a);
    Js.TwoDigitValue(b);
    assert a[0] == b[0] && a[1] == b[1];
  }

  /** Month and day, two digits each, read as one four-digit number. */
  lemma MonthDayValue(m: string, d: string)
    requires |m| == 2 && |d| == 2 && Js.AllDigits(m) && Js.AllDigits(d)
    ensures Js.AllDigits(m + d) && Js.DigitsValue(m + d) == Js.DigitsValue(m) * 100 + Js.DigitsValue(d)
  {
    Js.DigitsValueAppend(m, d);
    assert Js.Pow10(2) == 100;
  }

  /** A four-digit year followed by four digits reads as one eight-digit number. */
  lemma YearValue(y: string, md: string)
    requires |md| == 4 && Js.AllDigits(y) && Js.AllDigits(md)
    ensures Js.AllDigits(y + md) && Js.DigitsValue(y + md) == Js.DigitsValue(y) * 10000 + Js.DigitsValue(md)
  {
    Js.DigitsValueAppend(y, md);
    assert Js.Pow10(4) == 10000;
  }

  /** Where the year, the month and the day sit in their concatenation. */
  lemma DateSlices(y: string, m: string, d: string)
    requires |m| == 2 && |d| == 2
    ensures var r := y + (m + d);
            && |r| == |y| + 4
            && r[|r| - 4..|r| - 2] == m && r[|r| - 2..] == d
            && r[|r| - 4..] == m + d && r[..|r| - 4] == y
  {
  }

  /** `formatDate`: the year, then month (`getMonth() + 1`) and day, each padded to two digits. */
  function FormatDate(year: int, monthIndex: nat, day: nat): (r: string)
    requires monthIndex < 12 && 1 <= day <= 31
    ensures |r| >= 5
  {
    Js.IntToString(year) + (Pad2(monthIndex + 1) + Pad2(day))
  }

  /** The last four characters of a formatted date are the month and the day, two digits each. */
  lemma FormatDateMonthDay(year: int, monthIndex: nat, day: nat)
    requires monthIndex < 12 && 1 <= day <= 31
    ensures var r := FormatDate(year, monthIndex, day);
            && Js.AllDigits(r[|r| - 4..|r| - 2]) && Js.DigitsValue(r[|r| - 4..|r| - 2]) == monthIndex + 1
            && Js.AllDigits(r[|r| - 2..]) && Js.DigitsValue(r[|r| - 2..]) == day
  {
    var m, d := Pad2(monthIndex + 1), Pad2(day);
    DateSlices(Js.IntToString(year), m, d);
  }

  /** What precedes the last four characters of a formatted date parses back to the year. */
  lemma FormatDateYear(year: int, monthIndex: nat, day: nat)
    requires monthIndex < 12 && 1 <= day <= 31
    ensures var r := FormatDate(year, monthIndex, day); Js.ParseInt(r[..|r| - 4]) == Js.Num(year)
  {
    var y := Js.IntToString(year);
    DateSlices(y, Pad2(monthIndex + 1), Pad2(day));
    Js.ParseIntRoundTrip(year, []);
    assert y + [] == y;
  }

  /** For a four-digit year the formatted date is the basic calendar-date form YYYYMMDD of
      ISO 8601 (section 4.1.2.2 of ISO 8601:2004): eight digits whose value is
      `year * 10000 + month * 100 + day`. */
  lemma FormatDateBasic(year: int, monthIndex: nat, day: nat)
    requires monthIndex < 12 && 1 <= day <= 31 && 1000 <= year <= 9999
    ensures var r := FormatDate(year, monthIndex, day);
            |r| == 8 && Js.AllDigits(r) && Js.DigitsValue(r) == year * 10000 + (monthIndex + 1) * 100 + day
  {
    var y, m, d := Js.IntToString(year), Pad2(monthIndex + 1), Pad2(day);
    MonthDayValue(m, d);
    YearValue(y, m + d);
  }

  /** The `dates=` value of the scoreboard request: the start date, a dash, the end date. */
  function DateWindow(startDate: string, endDate: string): string {
    startDate + "-" + endDate
  }

  /** For two dates with four-digit years the window is two eight-digit YYYYMMDD numbers
      around the dash at index 8. */
  lemma DateWindowOfDates(y1: int, m1: nat, d1: nat, y2: int, m2: nat, d2: nat)
    requires m1 < 12 && 1 <= d1 <= 31 && 1000 <= y1 <= 9999
    requires m2 < 12 && 1 <= d2 <= 31 && 1000 <= y2 <= 9999
    ensures var w := DateWindow(FormatDate(y1, m1, d1), FormatDate(y2, m2, d2));
            && |w| == 17 && w[8] == '-'
            && Js.AllDigits(w[..8]) && Js.DigitsValue(w[..8]) == y1 * 10000 + (m1 + 1) * 100 + d1
            && Js.AllDigits(w[9..]) && Js.DigitsValue(w[9..]) == y2 * 10000 + (m2 + 1) * 100 + d2
  {
    FormatDateBasic(y1, m1, d1);
    FormatDateBasic(y2, m2, d2);
    WindowParts(FormatDate(y1, m1, d1), FormatDate(y2, m2, d2));
  }

  /** Where the two dates sit in the window. */
  lemma WindowParts(a: string, b: string)
    requires |a| == 8 && |b| == 8
    ensures var w := DateWindow(a, b); |w| == 17 && w[8] == '-' && w[..8] == a && w[9..] == b
  {
    Seqs.Middle(a, "-", b);
  }
}
