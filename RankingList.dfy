/**
 * The gamified ranking: the first three planners of the ranking table stand on
 * a podium (second, first, third from left to right) and the others follow in
 * a leaderboard. Points reward completed actions five times as much as opened
 * ones.
 */
module RankingList {
  import opened JsBuiltins

  /** `PlannerRank`; `otif` is a percentage with one decimal. */
  datatype PlannerRank = PlannerRank(
    rank: int,
    name: string,
    avatar: Option<string>,
    teamLeader: string,
    points: int,
    level: string,
    otif: real,
    badges: seq<string>,
    progress: int,
    trend: int,
    actionsOpened: int,
    actionsCompleted: int
  )

  /** `RANKING_DATA`. */
  const RankingData: seq<PlannerRank> := [
    PlannerRank(1, "Ana Silva", None, "Carlos Mendes", 2850, "Diamond", 98.5, ["MVP", "Zero Shortage"], 92, 2, 45, 48),
    PlannerRank(2, "Carlos Mendes", None, "Director Level", 2400, "Gold", 96.0, ["Problem Solver"], 75, 0, 50, 38),
    PlannerRank(3, "Elena Torres", None, "Carlos Mendes", 2150, "Gold", 96.0, ["Fast Typer"], 60, -1, 40, 35),
    PlannerRank(4, "Bruno Souza", None, "Mariana Costa", 1800, "Silver", 92.0, [], 45, 1, 60, 24),
    PlannerRank(5, "Carla Dias", None, "Mariana Costa", 1650, "Silver", 94.5, [], 30, 3, 35, 26),
    PlannerRank(6, "Daniel Rocha", None, "Mariana Costa", 1200, "Bronze", 88.0, [], 80, 0, 30, 18),
    PlannerRank(7, "Henrique", None, "Wilson", 900, "Bronze", 85.0, [], 20, -2, 20, 14)
  ]

  // ---------------------------------------------------------------------------
  // Scoring

  /** 50 points per completed action and 10 per opened action. */
  function PointsFor(openedCount: int, completedCount: int): (points: int)
    ensures points == 10 * (openedCount + 5 * completedCount)
    ensures points % 10 == 0
    ensures openedCount >= 0 && completedCount >= 0 ==> points >= 0
  {
    50 * completedCount + 10 * openedCount
  }

  predicate FollowsFormula(p: PlannerRank)
  {
    p.points == PointsFor(p.actionsOpened, p.actionsCompleted)
  }

  /** Each entry is at its rank's 1-based position. */
  predicate RanksArePositions(data: seq<PlannerRank>)
  {
    forall i :: 0 <= i < |data| ==> data[i].rank == i + 1
  }

  /** Points strictly decrease down the table. */
  predicate PointsDecrease(data: seq<PlannerRank>)
  {
    forall i, j :: 0 <= i < j < |data| ==> data[i].points > data[j].points
  }

  /** The ranking table scores every planner by the formula, ranks are the
      1-based positions, and points strictly decrease with rank. */
  lemma RankingDataConsistent()
    ensures |RankingData| == 7
    ensures forall i :: 0 <= i < |RankingData| ==> FollowsFormula(RankingData[i])
    ensures RanksArePositions(RankingData)
    ensures PointsDecrease(RankingData)
  {
    var d := RankingData;
    assert d[0].points > d[1].points > d[2].points > d[3].points > d[4].points > d[5].points > d[6].points;
  }

  // ---------------------------------------------------------------------------
  // Podium and leaderboard

  /** The planners passed to the podium: `[data[0], data[1], data[2]]`. */
  function PodiumEntries(data: seq<PlannerRank>): (r: seq<PlannerRank>)
    requires |data| >= 3
    ensures r == data[..3]
  {
    [data[0], data[1], data[2]]
  }

  /** `data.slice(3)`. */
  function Leaderboard(data: seq<PlannerRank>): (r: seq<PlannerRank>)
    ensures |r| == if |data| >= 3 then |data| - 3 else 0
    ensures forall k :: 0 <= k < |r| ==> r[k] == data[k + 3]
  {
    Slice(data, 3, |data|)
  }

  /** Podium and leaderboard together list every entry once, in order. */
  lemma PodiumAndLeaderboardCover(data: seq<PlannerRank>)
    requires |data| >= 3
    ensures PodiumEntries(data) + Leaderboard(data) == data
  {
    var l := Leaderboard(data);
    assert l == data[3..];
    assert data == data[..3] + data[3..];
  }

  /** One podium place: the planner and the rank drawn on it. */
  datatype PodiumItem = PodiumItem(planner: PlannerRank, rank: int)

  /** `Podium`: destructures three planners (fewer would leave some undefined)
      and lays them out second, first, third from left to right. */
  function PodiumLayout(planners: seq<PlannerRank>): (layout: seq<PodiumItem>)
    requires |planners| >= 3
    ensures |layout| == 3
    ensures forall i :: 0 <= i < 3 ==> 1 <= layout[i].rank <= 3 && layout[i].planner == planners[layout[i].rank - 1]
    ensures forall i, j :: 0 <= i < j < 3 ==> layout[i].rank != layout[j].rank
    ensures layout[0].rank == 2 && layout[1].rank == 1 && layout[2].rank == 3
  {
    var first, second, third := planners[0], planners[1], planners[2];
    [PodiumItem(second, 2), PodiumItem(first, 1), PodiumItem(third, 3)]
  }

  /** With strictly decreasing points, the winner stands in the middle, every
      podium planner outscores every leaderboard planner, and the centre
      outscores both sides. */
  lemma PodiumOutscoresLeaderboard(data: seq<PlannerRank>)
    requires |data| >= 3
    requires PointsDecrease(data)
    ensures var layout := PodiumLayout(PodiumEntries(data));
      && layout[1].planner.points > layout[0].planner.points > layout[2].planner.points
      && forall i, k :: 0 <= i < 3 && 0 <= k < |Leaderboard(data)| ==>
           layout[i].planner.points > Leaderboard(data)[k].points
  {
    var layout := PodiumLayout(PodiumEntries(data));
    forall i, k | 0 <= i < 3 && 0 <= k < |Leaderboard(data)|
      ensures layout[i].planner.points > Leaderboard(data)[k].points
    {
      assert layout[i].planner == data[layout[i].rank - 1];
      assert Leaderboard(data)[k] == data[k + 3];
    }
  }

  /** For the ranking table, the podium shows Ana Silva in the centre between
      Carlos Mendes and Elena Torres, and the leaderboard ranks 4 to 7. */
  lemma RankingPage()
    ensures var layout := PodiumLayout(PodiumEntries(RankingData));
      [layout[0].planner.name, layout[1].planner.name, layout[2].planner.name]
        == ["Carlos Mendes", "Ana Silva", "Elena Torres"]
    ensures |Leaderboard(RankingData)| == 4
    ensures forall k :: 0 <= k < 4 ==> Leaderboard(RankingData)[k].rank == k + 4
  {
    RankingDataConsistent();
  }
}
