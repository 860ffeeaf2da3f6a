/** The row highlighting of frontend/src/components/BostonSportsScoreComponent.tsx:
    `getResultClass` picks a CSS class from the two scores once a game is final. */
module ScoreCard {
  import Js
  import Sports

  /** `status.toLowerCase().includes('final')`. */
  predicate IsFinal(status: string)
    ensures IsFinal(status) ==> |status| >= 5
  {
    Js.Includes(Js.ToLower(status), "final")
  }

  /** `getResultClass`: no class before the game is final; then win, loss, or tie when
      neither score is greater (which includes a NaN score). */
  function ResultClass(teamScore: Js.Number, opponentScore: Js.Number, status: string): (r: string)
    ensures !IsFinal(status) ==> r == ""
    ensures IsFinal(status) ==> (
      && (r == "game-win" <==> Js.Greater(teamScore, opponentScore))
      && (r == "game-loss" <==> Js.Less(teamScore, opponentScore))
      && (r == "game-tie" <==> !Js.Greater(teamScore, opponentScore) && !Js.Less(teamScore, opponentScore)))
  {
    if !IsFinal(status) then ""
    else if Js.Greater(teamScore, opponentScore) then "game-win"
    else if Js.Less(teamScore, opponentScore) then "game-loss"
    else "game-tie"
  }

  /** A status with no letter f in either case is never final. */
  lemma WithoutF(status: string)
    requires forall i :: 0 <= i < |status| ==> status[i] != 'f' && status[i] != 'F'
    ensures !IsFinal(status)
  {
    var lowered := Js.ToLower(status);
    assert forall i :: 0 <= i < |lowered| ==> lowered[i] != 'f';
    if IsFinal(status) {
      Js.IncludesFirstChar(lowered, "final");
      assert false;
    }
  }

  /** The statuses of the placeholder rows are not final, so those rows get no class. */
  lemma PlaceholdersUnclassified(teamScore: Js.Number, opponentScore: Js.Number, status: string)
    requires status == "Error loading" || status == "No games in last 7 days" || status == "Scheduled"
    ensures ResultClass(teamScore, opponentScore, status) == ""
  {
    WithoutF(status);
  }

  /** The two placeholder rows the sports service produces are shown without a class. */
  lemma PlaceholderRows(team: Sports.TeamConfig, now: string)
    ensures var g := Sports.NoRecentGame(team, now); ResultClass(g.teamScore, g.opponentScore, g.status) == ""
    ensures var g := Sports.Unavailable(team, now); ResultClass(g.teamScore, g.opponentScore, g.status) == ""
  {
    PlaceholdersUnclassified(Js.Num(0), Js.Num(0), "No games in last 7 days");
    PlaceholdersUnclassified(Js.Num(0), Js.Num(0), "Error loading");
  }

  /** A final status in any letter case counts: "Final", "FINAL", "Final/OT". */
  lemma FinalStatuses()
    ensures IsFinal("Final") && IsFinal("FINAL") && IsFinal("Final/OT")
  {
    assert Js.ToLower("Final") == "final";
    assert Js.ToLower("FINAL") == "final";
    assert Js.ToLower("Final/OT")[..5] == "final";
    Js.IncludesAt(Js.ToLower("Final/OT"), "final", 0);
    Js.IncludesAt(Js.ToLower("Final"), "final", 0);
    Js.IncludesAt(Js.ToLower("FINAL"), "final", 0);
  }
}
