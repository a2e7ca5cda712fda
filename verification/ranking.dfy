/**
 * Aggregation in Backend/src/services/partidaService.js: the top-five
 * leaderboard (`obtenerRanking`), the four-bucket option histogram and the
 * correct index sent with each question's results, and the end-of-game
 * per-question report.
 */
module Ranking {

  import opened Wrappers
  import opened Seqs
  import opened PreguntaModel
  import opened PartidaModel
  import opened ParticipacionModel

  /** One leaderboard line: `{ nombre, puntos }`. */
  datatype RankEntry = RankEntry(name: string, points: int)

  /** Number of leaderboard lines `obtenerRanking` keeps. */
  const RankingSize: nat := 5

  /** Number of histogram buckets (`[0, 0, 0, 0]`). */
  const Buckets: nat := 4

  /** The sort key of the roster: the cumulative score. */
  function ByScore(p: Player): int {
    p.score
  }

  /** The roster after the stable descending sort, cut to five entries. */
  function TopPlayers(players: seq<Player>): seq<Player> {
    Take(SortDesc(players, ByScore), RankingSize)
  }

  /**
   * `obtenerRanking`: at most five lines in non-increasing order of score,
   * each reporting a player's name and score (the score is never missing:
   * the schema defaults it to 0).
   */
  function TopFive(players: seq<Player>): (r: seq<RankEntry>)
    ensures |r| == if |players| < RankingSize then |players| else RankingSize
    ensures forall i, j :: 0 <= i < j < |r| ==> r[i].points >= r[j].points
    ensures forall i :: 0 <= i < |r| ==>
              (exists k :: 0 <= k < |players| && r[i] == RankEntry(players[k].name, players[k].score))
  {
    var top := TopPlayers(players);
    TopPlayersSpec(players);
    seq(|top|, i requires 0 <= i < |top| => RankEntry(top[i].name, top[i].score))
  }

  lemma TopPlayersSpec(players: seq<Player>)
    ensures SortedDesc(TopPlayers(players), ByScore)
    ensures forall i :: 0 <= i < |TopPlayers(players)| ==> TopPlayers(players)[i] in players
  {
    var sorted := SortDesc(players, ByScore);
    SortDescSpec(players, ByScore);
    forall i | 0 <= i < |TopPlayers(players)|
      ensures TopPlayers(players)[i] in players
    {
      assert TopPlayers(players)[i] == sorted[i];
      assert sorted[i] in multiset(players);
    }
  }

  /**
   * The leaderboard shows the highest scores: a player missing from it
   * scores no more than its last line, and its first line is the roster's
   * best score.
   */
  lemma TopFiveSelectsHighest(players: seq<Player>, p: Player)
    requires p in players
    ensures |TopFive(players)| > 0
    ensures p.score <= TopFive(players)[0].points
    ensures p !in TopPlayers(players) ==> p.score <= TopFive(players)[|TopFive(players)| - 1].points
  {
    var sorted := SortDesc(players, ByScore);
    SortDescSpec(players, ByScore);
    assert p in multiset(sorted);
    var k :| 0 <= k < |sorted| && sorted[k] == p;
    var top := TopPlayers(players);
    var r := TopFive(players);
    assert r[0].points == sorted[0].score;
    if p !in top {
      assert k >= |top|;
      assert r[|r| - 1].points == sorted[|top| - 1].score;
    }
  }

  /**
   * The sort is stable: among players with the same score, the leaderboard
   * keeps roster order, and it shows a leading run of each score's players.
   */
  lemma TopFiveStable(players: seq<Player>, v: int)
    ensures Class(TopPlayers(players), ByScore, v) <= Class(players, ByScore, v)
  {
    var sorted := SortDesc(players, ByScore);
    SortDescSpec(players, ByScore);
    var top := TopPlayers(players);
    assert sorted == top + sorted[|top|..];
    ClassAppend(top, sorted[|top|..], ByScore, v);
  }

  /**
   * The bucket a participation votes for on a question: the first selected
   * index of its first record for that question, when it marked anything.
   */
  function Vote(p: Participation, questionId: string): Option<int> {
    match FindRecord(p.answers, questionId)
    case Some(r) => if |r.selected| > 0 then Some(r.selected[0]) else None
    case None => None
  }

  /** `if (stats[idx] !== undefined) stats[idx]++`: indices outside 0..3 are dropped. */
  function Bump(h: seq<nat>, vote: Option<int>): (h': seq<nat>)
    requires |h| == Buckets
    ensures |h'| == Buckets
  {
    match vote
    case Some(i) => if 0 <= i < Buckets then h[i := h[i] + 1] else h
    case None => h
  }

  /** The histogram `concluirPregunta` and the final report build with `forEach`. */
  function Histogram(parts: seq<Participation>, questionId: string): (h: seq<nat>)
    ensures |h| == Buckets
    ensures h[0] + h[1] + h[2] + h[3] <= |parts|
  {
    if |parts| == 0 then [0, 0, 0, 0]
    else
      var prev := Histogram(parts[..|parts| - 1], questionId);
      Bump(prev, Vote(parts[|parts| - 1], questionId))
  }

  /** Independent count: the participations that vote for bucket b. */
  function VotesFor(parts: seq<Participation>, questionId: string, b: int): nat {
    Count(parts, (p: Participation) => Vote(p, questionId) == Some(b))
  }

  lemma {:induction false} CountSnoc<T>(s: seq<T>, x: T, p: T -> bool)
    ensures Count(s + [x], p) == Count(s, p) + (if p(x) then 1 else 0)
    decreases |s|
  {
    if |s| > 0 {
      assert (s + [x])[1..] == s[1..] + [x];
      CountSnoc(s[1..], x, p);
    }
  }

  /**
   * Each bucket counts exactly the participations whose first marked index
   * on the question is that bucket.
   */
  lemma {:induction false} HistogramCounts(parts: seq<Participation>, questionId: string, b: int)
    requires 0 <= b < Buckets
    ensures Histogram(parts, questionId)[b] == VotesFor(parts, questionId, b)
    decreases |parts|
  {
    if |parts| > 0 {
      var init, last := parts[..|parts| - 1], parts[|parts| - 1];
      HistogramCounts(init, questionId, b);
      assert Histogram(parts, questionId) == Bump(Histogram(init, questionId), Vote(last, questionId));
      BumpAt(Histogram(init, questionId), Vote(last, questionId), b);
      VotesForLast(parts, questionId, b);
    }
  }

  lemma VotesForLast(parts: seq<Participation>, questionId: string, b: int)
    requires |parts| > 0
    ensures VotesFor(parts, questionId, b)
            == VotesFor(parts[..|parts| - 1], questionId, b)
               + (if Vote(parts[|parts| - 1], questionId) == Some(b) then 1 else 0)
  {
    assert parts == parts[..|parts| - 1] + [parts[|parts| - 1]];
    CountSnoc(parts[..|parts| - 1], parts[|parts| - 1], (p: Participation) => Vote(p, questionId) == Some(b));
  }

  lemma BumpAt(h: seq<nat>, vote: Option<int>, b: int)
    requires |h| == Buckets && 0 <= b < Buckets
    ensures Bump(h, vote)[b] == h[b] + (if vote == Some(b) then 1 else 0)
  {
  }

  /** One line of the final report (`reporteGlobal`). */
  datatype QuestionReport = QuestionReport(text: string, options: seq<Choice>, stats: seq<nat>, correct: int)

  /** The final report: one line per question of the quiz, in quiz order. */
  function Report(questions: seq<Question>, parts: seq<Participation>): (r: seq<QuestionReport>)
    ensures |r| == |questions|
    ensures forall i :: 0 <= i < |r| ==> |r[i].stats| == Buckets
  {
    seq(|questions|, i requires 0 <= i < |questions| =>
      QuestionReport(questions[i].text, questions[i].options,
                     Histogram(parts, questions[i].id), FirstCorrectIndex(questions[i].options)))
  }

  /**
   * Every report line carries, for its own question, the per-bucket vote
   * counts and the first correct option (-1 when none is flagged).
   */
  lemma ReportLines(questions: seq<Question>, parts: seq<Participation>, i: nat, b: int)
    requires i < |questions| && 0 <= b < Buckets
    ensures Report(questions, parts)[i].stats[b] == VotesFor(parts, questions[i].id, b)
    ensures var c := Report(questions, parts)[i].correct;
            (c == -1 <==> forall k :: 0 <= k < |questions[i].options| ==> !questions[i].options[k].isCorrect)
            && (c >= 0 ==> questions[i].options[c].isCorrect)
            && (c >= 0 ==> forall k :: 0 <= k < c ==> !questions[i].options[k].isCorrect)
  {
    HistogramCounts(parts, questions[i].id, b);
  }
}
