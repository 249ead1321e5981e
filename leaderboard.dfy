/**
 * The leaderboard table and the labels used for a challenge's score: which
 * entries are shown, under which name, with which rank colour.
 */
module Leaderboard {
  import opened Text
  import Scoring

  /** `formatScore`: the label of a confusion-matrix score. */
  function FormatScore(score: int): (r: string)
    ensures score == 5 ==> r == "Correct"
    ensures score == -1 ==> r == "Minor error"
    ensures score == -2 ==> r == "Moderate error"
    ensures score <= -3 ==> r == "Severe error"
    ensures score != 5 && score != -1 && score != -2 && score > -3 ==> r == IntToString(score)
  {
    if score == 5 then "Correct"
    else if score == -1 then "Minor error"
    else if score == -2 then "Moderate error"
    else if score <= -3 then "Severe error"
    else IntToString(score)
  }

  const Labels: set<string> := {"Correct", "Minor error", "Moderate error", "Severe error"}

  /** Every score the confusion matrix can give has a label; no raw number is ever shown for one. */
  lemma ScoresAreLabelled(guess: int, groundTruth: int)
    ensures FormatScore(Scoring.GetScore(guess, groundTruth)) in Labels
  {
    Scoring.ScoreValues(guess, groundTruth);
  }

  /** The label of a number outside the matrix's values is the number itself, which is never a label. */
  lemma OtherScoresShownRaw(score: int)
    requires score != 5 && score != -1 && score != -2 && score > -3
    ensures FormatScore(score) !in Labels
  {
    var r := IntToString(score);
    assert r[0] == '-' || IsDigit(r[0]);
  }

  /** `getScoreColorClass`. */
  function ScoreColor(score: int): (r: string)
    ensures r == "text-green-600" <==> score == 5
    ensures r == "text-yellow-600" <==> score == -1
    ensures r == "text-orange-600" <==> score == -2
    ensures r == "text-red-600" <==> score != 5 && score != -1 && score != -2
  {
    if score == 5 then "text-green-600"
    else if score == -1 then "text-yellow-600"
    else if score == -2 then "text-orange-600"
    else "text-red-600"
  }

  /** A label and its colour agree, except that a raw number is shown in red. */
  lemma ColorMatchesLabel(score: int)
    ensures FormatScore(score) == "Severe error" ==> ScoreColor(score) == "text-red-600"
    ensures FormatScore(score) == "Correct" <==> ScoreColor(score) == "text-green-600"
  {
    if score != 5 && score != -1 && score != -2 && score > -3 {
      OtherScoresShownRaw(score);
    }
  }

  datatype Entry = Entry(username: string, score: int, timeTakenMs: int, timestamp: string)

  predicate IsAdminName(username: string) {
    EndsWith(username, "admin")
  }

  /** The shown entries: administrators' are dropped, the rest keep the server's order. */
  function Visible(entries: seq<Entry>): (r: seq<Entry>)
    ensures |r| <= |entries|
  {
    if entries == [] then []
    else (if IsAdminName(entries[0].username) then [] else [entries[0]]) + Visible(entries[1..])
  }

  /** Exactly the entries of non-administrators are shown. */
  lemma {:induction false} VisibleMembers(entries: seq<Entry>)
    ensures forall e :: e in Visible(entries) <==> e in entries && !IsAdminName(e.username)
  {
    if entries != [] {
      VisibleMembers(entries[1..]);
      assert entries == [entries[0]] + entries[1..];
    }
  }

  /** Filtering is taken piece by piece, so the shown entries keep their relative order. */
  lemma {:induction false} VisibleAppend(a: seq<Entry>, b: seq<Entry>)
    ensures Visible(a + b) == Visible(a) + Visible(b)
  {
    if a == [] {
      assert a + b == b;
    } else {
      var h := if IsAdminName(a[0].username) then [] else [a[0]];
      assert (a + b)[0] == a[0];
      assert (a + b)[1..] == a[1..] + b;
      assert Visible(a + b) == h + Visible(a[1..] + b);
      VisibleAppend(a[1..], b);
      assert Visible(a) == h + Visible(a[1..]);
      assert h + (Visible(a[1..]) + Visible(b)) == (h + Visible(a[1..])) + Visible(b);
    }
  }

  /** Ids handed out by the server are shown anonymously; chosen usernames are shown as they are. */
  function DisplayName(username: string): (r: string)
    ensures StartsWith(username, "UCLA_") ==> r == "Anonymous"
    ensures !StartsWith(username, "UCLA_") ==> r == username
  {
    if StartsWith(username, "UCLA_") then "Anonymous" else username
  }

  const Gold := "bg-yellow-300 hover:bg-yellow-400"
  const Silver := "bg-slate-300 hover:bg-slate-400"
  const Bronze := "bg-orange-300 hover:bg-orange-400"
  const Striped := "odd:bg-gray-100 hover:bg-gray-200"

  /** The row class of the shown entry at a position. */
  function RankClass(index: nat): string {
    if index == 0 then Gold else if index == 1 then Silver else if index == 2 then Bronze else Striped
  }

  datatype TableRow = TableRow(name: string, score: int, timeTakenMs: int, rowClass: string)

  function RowsFrom(shown: seq<Entry>, start: nat): (rows: seq<TableRow>)
    ensures |rows| == |shown|
    ensures forall i :: 0 <= i < |rows| ==>
      rows[i] == TableRow(DisplayName(shown[i].username), shown[i].score, shown[i].timeTakenMs, RankClass(start + i))
  {
    if shown == [] then []
    else [TableRow(DisplayName(shown[0].username), shown[0].score, shown[0].timeTakenMs, RankClass(start))]
         + RowsFrom(shown[1..], start + 1)
  }

  /** The table body: one row per shown entry, ranked by position among the shown entries. */
  function Rows(entries: seq<Entry>): seq<TableRow> {
    RowsFrom(Visible(entries), 0)
  }

  /** The first three shown entries get gold, silver and bronze, the rest the striped class;
      no administrator's entry is ranked. */
  lemma Podium(entries: seq<Entry>)
    ensures var rows := Rows(entries);
      && |rows| == |Visible(entries)|
      && (|rows| > 0 ==> rows[0].rowClass == Gold)
      && (|rows| > 1 ==> rows[1].rowClass == Silver)
      && (|rows| > 2 ==> rows[2].rowClass == Bronze)
      && (forall i :: 3 <= i < |rows| ==> rows[i].rowClass == Striped)
      && (forall i :: 0 <= i < |rows| ==> !IsAdminName(Visible(entries)[i].username))
  {
    var shown := Visible(entries);
    VisibleMembers(entries);
    forall i | 0 <= i < |shown| ensures !IsAdminName(shown[i].username) {
      assert shown[i] in shown;
    }
  }
}
