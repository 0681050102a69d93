/**
 * The LeetCode statistics route (app/api/leetcode-stats/route.ts:36-60): from the parsed
 * GraphQL response, the solved counts per difficulty, their total, the rounded share of
 * each difficulty and the ranking label. The GraphQL fetch itself is an input.
 */
module LeetcodeStats {
  import opened Wrappers

  /** One entry of `acSubmissionNum`; `count` is None when it is null. */
  datatype Submission = Submission(difficulty: string, count: Option<nat>)

  /** `matchedUser`: `profile.ranking` (None when null) and `submitStats.acSubmissionNum`. */
  datatype MatchedUser = MatchedUser(ranking: Option<int>, acSubmissionNum: seq<Submission>)

  /**
   * The parsed body: `data.data` is None when missing or null; otherwise `matchedUser`
   * is None when missing or null.
   */
  datatype Response = Response(data: Option<Option<MatchedUser>>)

  /** The JSON object the route answers with when the user was found. */
  datatype Stats = Stats(
    leetcodeRanking: string,
    totalSolved: nat,
    easy: nat,
    medium: nat,
    hard: nat,
    easyPercentage: nat,
    mediumPercentage: nat,
    hardPercentage: nat)

  const NotFoundError: string := "User data not found or invalid response"

  /** `acSubmissionNum.find((item) => item.difficulty === difficulty)`. */
  function Find(subs: seq<Submission>, difficulty: string): (r: Option<nat>)
    ensures r.Some? ==> r.value < |subs| && subs[r.value].difficulty == difficulty
    ensures r.Some? ==> forall k :: 0 <= k < r.value ==> subs[k].difficulty != difficulty
    ensures r.None? <==> forall k :: 0 <= k < |subs| ==> subs[k].difficulty != difficulty
  {
    if subs == [] then None
    else if subs[0].difficulty == difficulty then Some(0)
    else match Find(subs[1..], difficulty)
      case None => None
      case Some(k) => Some(k + 1)
  }

  /** `find(...)?.count || 0`: the count of the first entry of that difficulty, 0 when absent or null. */
  function CountOf(subs: seq<Submission>, difficulty: string): (c: nat)
  {
    match Find(subs, difficulty)
    case None => 0
    case Some(k) => if subs[k].count.Some? then subs[k].count.value else 0
  }

  /** Entries of another difficulty never affect a difficulty's count, wherever they stand. */
  lemma {:induction false} CountIgnoresOtherDifficulty(a: seq<Submission>, x: Submission, b: seq<Submission>, difficulty: string)
    requires x.difficulty != difficulty
    ensures CountOf(a + [x] + b, difficulty) == CountOf(a + b, difficulty)
    decreases |a|
  {
    var s, t := a + [x] + b, a + b;
    if a == [] {
      assert s == [x] + b && s[1..] == b && t == b;
      CountOfTail(s, difficulty);
    } else {
      assert s[0] == a[0] && t[0] == a[0];
      assert s[1..] == a[1..] + [x] + b && t[1..] == a[1..] + b;
      if a[0].difficulty != difficulty {
        CountIgnoresOtherDifficulty(a[1..], x, b, difficulty);
        CountOfTail(s, difficulty);
        CountOfTail(t, difficulty);
      }
    }
  }

  /** A first entry of another difficulty is skipped. */
  lemma CountOfTail(subs: seq<Submission>, difficulty: string)
    requires subs != [] && subs[0].difficulty != difficulty
    ensures CountOf(subs, difficulty) == CountOf(subs[1..], difficulty)
  {
    match Find(subs[1..], difficulty)
    case None =>
    case Some(k) => assert subs[k + 1] == subs[1..][k];
  }

  /**
   * `Math.round(100 * x / total)` with halves rounded up, computed exactly:
   * the natural number p with p - 1/2 <= 100 * x / total < p + 1/2.
   */
  function RoundedPercentage(x: nat, total: nat): (p: nat)
    requires 0 < total
    ensures (2 * p - 1) * total <= 200 * x < (2 * p + 1) * total
  {
    var p := (200 * x + total) / (2 * total);
    DivBounds(200 * x + total, 2 * total);
    p
  }

  lemma DivBounds(a: nat, b: nat)
    requires 0 < b
    ensures b * (a / b) <= a < b * (a / b + 1)
  {
  }

  /** A share of the total never exceeds 100 percent. */
  lemma PercentageAtMost100(x: nat, total: nat)
    requires 0 < total && x <= total
    ensures RoundedPercentage(x, total) <= 100
  {
    var p := RoundedPercentage(x, total);
    assert (2 * p - 1) * total <= 200 * total;
    CancelFactor(2 * p - 1, 200, total);
  }

  /** `totalSolved ? Math.round((x / totalSolved) * 100) : 0`. */
  function Percentage(x: nat, total: nat): (p: nat)
    requires x <= total
    ensures p <= 100
    ensures total == 0 ==> p == 0
    ensures 0 < total ==> p == RoundedPercentage(x, total)
  {
    if total == 0 then 0
    else
      PercentageAtMost100(x, total);
      RoundedPercentage(x, total)
  }

  /** The decimal digits of n, without leading zeros ("0" for zero). */
  function NatToDecimal(n: nat): (s: string)
    ensures |s| > 0
    ensures forall k :: 0 <= k < |s| ==> '0' <= s[k] <= '9'
    ensures |s| > 1 ==> s[0] != '0'
    decreases n
  {
    if n < 10 then [Digit(n)] else NatToDecimal(n / 10) + [Digit(n % 10)]
  }

  function Digit(d: nat): (c: char)
    requires d < 10
    ensures '0' <= c <= '9' && c as int - '0' as int == d
  {
    ('0' as int + d) as char
  }

  /** The number a string of decimal digits denotes. */
  function DecimalValue(s: string): nat
    requires forall k :: 0 <= k < |s| ==> '0' <= s[k] <= '9'
    decreases |s|
  {
    if s == [] then 0
    else 10 * DecimalValue(s[..|s| - 1]) + (s[|s| - 1] as int - '0' as int)
  }

  /** Reading the digits back gives the number: the rendering loses nothing. */
  lemma {:induction false} DecimalRoundTrip(n: nat)
    ensures DecimalValue(NatToDecimal(n)) == n
    decreases n
  {
    if n >= 10 {
      DecimalRoundTrip(n / 10);
      var s := NatToDecimal(n);
      assert s[..|s| - 1] == NatToDecimal(n / 10);
    }
  }

  /** How JavaScript writes an integer in a template string. */
  function IntToDecimal(n: int): string
  {
    if n < 0 then "-" + NatToDecimal(-n) else NatToDecimal(n)
  }

  /** `#${user.profile.ranking || "Not available"}`: a null or zero ranking is falsy. */
  function RankingLabel(ranking: Option<int>): (shown: string)
    ensures |shown| > 1 && shown[0] == '#'
    ensures ranking.None? || ranking.value == 0 ==> shown == "#Not available"
    ensures ranking.Some? && ranking.value > 0 ==> shown[1..] == NatToDecimal(ranking.value)
  {
    if ranking.None? || ranking.value == 0 then "#Not available"
    else "#" + IntToDecimal(ranking.value)
  }

  /** The response, or the error object when `data.data` or `matchedUser` is missing. */
  function Transform(response: Response): (r: Result<Stats, string>)
    ensures r.Err? <==> response.data.None? || response.data.value.None?
    ensures r.Err? ==> r.error == NotFoundError
    ensures r.Ok? ==> var user := response.data.value.value; var s := r.value;
      && s.easy == CountOf(user.acSubmissionNum, "Easy")
      && s.medium == CountOf(user.acSubmissionNum, "Medium")
      && s.hard == CountOf(user.acSubmissionNum, "Hard")
      && s.totalSolved == s.easy + s.medium + s.hard
      && s.leetcodeRanking == RankingLabel(user.ranking)
      && s.easyPercentage == Percentage(s.easy, s.totalSolved)
      && s.mediumPercentage == Percentage(s.medium, s.totalSolved)
      && s.hardPercentage == Percentage(s.hard, s.totalSolved)
      && s.easyPercentage <= 100 && s.mediumPercentage <= 100 && s.hardPercentage <= 100
      && (s.totalSolved == 0 ==> s.easyPercentage == 0 && s.mediumPercentage == 0 && s.hardPercentage == 0)
  {
    match response.data
    case None => Err(NotFoundError)
    case Some(None) => Err(NotFoundError)
    case Some(Some(user)) =>
      var subs := user.acSubmissionNum;
      var easy := CountOf(subs, "Easy");
      var medium := CountOf(subs, "Medium");
      var hard := CountOf(subs, "Hard");
      var total := easy + medium + hard;
      Ok(Stats(RankingLabel(user.ranking), total, easy, medium, hard,
               Percentage(easy, total), Percentage(medium, total), Percentage(hard, total)))
  }

  /** A positive factor can be cancelled from both sides of an inequality. */
  lemma CancelFactor(a: int, b: int, t: int)
    requires 0 < t && a * t <= b * t
    ensures a <= b
  {
  }

  /**
   * Three shares of one total, each rounded to the nearest percent, add up to 100 give or
   * take one: each is off by at most a half.
   */
  lemma RoundedSharesSumNear100(x1: nat, x2: nat, x3: nat)
    requires 0 < x1 + x2 + x3
    ensures var t := x1 + x2 + x3;
      99 <= RoundedPercentage(x1, t) + RoundedPercentage(x2, t) + RoundedPercentage(x3, t) <= 101
  {
    var t := x1 + x2 + x3;
    var p1, p2, p3 := RoundedPercentage(x1, t), RoundedPercentage(x2, t), RoundedPercentage(x3, t);
    SumOfRoundings(p1, p2, p3, 200 * x1, 200 * x2, 200 * x3, t);
  }

  /** The arithmetic core: three values within half a unit of y_i / t, where the y_i sum to 200 t. */
  lemma SumOfRoundings(p1: int, p2: int, p3: int, y1: int, y2: int, y3: int, t: int)
    requires 0 < t && y1 + y2 + y3 == 200 * t
    requires (2 * p1 - 1) * t <= y1 < (2 * p1 + 1) * t
    requires (2 * p2 - 1) * t <= y2 < (2 * p2 + 1) * t
    requires (2 * p3 - 1) * t <= y3 < (2 * p3 + 1) * t
    ensures 99 <= p1 + p2 + p3 <= 101
  {
    var P := p1 + p2 + p3;
    assert low: (2 * P - 3) * t <= 200 * t by {
      assert (2 * p1 - 1) * t + (2 * p2 - 1) * t + (2 * p3 - 1) * t == (2 * P - 3) * t;
    }
    assert high: 200 * t < (2 * P + 3) * t by {
      assert (2 * p1 + 1) * t + (2 * p2 + 1) * t + (2 * p3 + 1) * t == (2 * P + 3) * t;
    }
    CancelFactor(2 * P - 3, 200, t);
  }

  /** When something was solved, the three percentages in the response add up to 100 give or take one. */
  lemma PercentagesSumNear100(response: Response)
    requires Transform(response).Ok? && Transform(response).value.totalSolved > 0
    ensures var s := Transform(response).value;
      99 <= s.easyPercentage + s.mediumPercentage + s.hardPercentage <= 101
  {
    var s := Transform(response).value;
    assert s.easyPercentage == RoundedPercentage(s.easy, s.totalSolved);
    assert s.mediumPercentage == RoundedPercentage(s.medium, s.totalSolved);
    assert s.hardPercentage == RoundedPercentage(s.hard, s.totalSolved);
    RoundedSharesSumNear100(s.easy, s.medium, s.hard);
  }

  /** The shape LeetCode answers with: an "All" entry first, which the total does not use. */
  lemma TypicalResponse(ranking: nat, all: nat, easy: nat, medium: nat, hard: nat)
    requires 0 < ranking
    ensures var subs := [Submission("All", Some(all)), Submission("Easy", Some(easy)),
                         Submission("Medium", Some(medium)), Submission("Hard", Some(hard))];
      var r := Transform(Response(Some(Some(MatchedUser(Some(ranking), subs)))));
      && r.Ok?
      && r.value.totalSolved == easy + medium + hard
      && r.value.leetcodeRanking == "#" + NatToDecimal(ranking)
  {
    var subs := [Submission("All", Some(all)), Submission("Easy", Some(easy)),
                 Submission("Medium", Some(medium)), Submission("Hard", Some(hard))];
    TypicalFinds(subs);
    assert CountOf(subs, "Easy") == easy && CountOf(subs, "Medium") == medium && CountOf(subs, "Hard") == hard;
  }

  /** Where `find` stops on the typical reply: "Easy" at 1, "Medium" at 2, "Hard" at 3. */
  lemma TypicalFinds(subs: seq<Submission>)
    requires |subs| == 4
    requires subs[0].difficulty == "All" && subs[1].difficulty == "Easy"
    requires subs[2].difficulty == "Medium" && subs[3].difficulty == "Hard"
    ensures Find(subs, "Easy") == Some(1) && Find(subs, "Medium") == Some(2) && Find(subs, "Hard") == Some(3)
  {
    assert Find(subs, "Easy") == Some(1);
    assert Find(subs[2..], "Medium") == Some(0);
    assert subs[1..][1..] == subs[2..];
    assert Find(subs[1..], "Medium") == Some(1);
    assert Find(subs[3..], "Hard") == Some(0);
    assert subs[2..][1..] == subs[3..];
    assert Find(subs[2..], "Hard") == Some(1);
    assert Find(subs[1..], "Hard") == Some(2);
  }
}
