/**
 * The single-market detail view (`getQuestionById` in
 * src/controllers/questionController.ts): the not-found case and the market
 * statistics derived from the loaded question.
 */
module MarketStats {
  import opened Common

  /** The holder summary selected with each holding. */
  datatype Holder = Holder(id: string, firstName: Option<string>, lastName: Option<string>)

  datatype Holding = Holding(quantity: int, averageBuyPrice: real, user: Holder)

  /** A side's token record; only its cumulative traded volume enters the statistics. */
  datatype Token = Token(currentPrice: real, circulatingSupply: int, totalVolume: real)

  /** The loaded question, reduced to what the statistics read. */
  datatype QuestionDetail = QuestionDetail(
    totalYesTokens: nat,
    totalNoTokens: nat,
    yesToken: Option<Token>,
    noToken: Option<Token>,
    yesTokenHoldings: seq<Holding>,
    noTokenHoldings: seq<Holding>)

  /** A percentage share: the literal `'0'`, or a number that `toFixed(2)` then formats. */
  datatype Share = ZeroShare | Percent(value: real)

  datatype Stats = Stats(
    totalParticipants: nat,
    totalVolume: real,
    yesHolders: nat,
    noHolders: nat,
    totalYesTokens: nat,
    totalNoTokens: nat,
    yesPercentage: Share,
    noPercentage: Share)

  datatype DetailResult = NotFound | Found(question: QuestionDetail, marketStats: Stats)

  /** `token?.totalVolume.toNumber() || 0`: a missing token contributes nothing. */
  function Volume(t: Option<Token>): (v: real)
    ensures t.None? ==> v == 0.0
    ensures t.Some? ==> v == t.value.totalVolume
  {
    if t.Some? then t.value.totalVolume else 0.0
  }

  /** The share of `part` in `part + other`, in percent, or `'0'` when `part` is zero. */
  function ShareOf(part: nat, other: nat): (s: Share)
    ensures s.Percent? <==> part > 0
    ensures s.Percent? ==> s.value * ((part + other) as real) == (part as real) * 100.0
    ensures s.Percent? ==> 0.0 < s.value <= 100.0
  {
    if part > 0 then
      var total := (part + other) as real;
      var v := (part as real) / total * 100.0;
      assert v * total == (part as real) * 100.0;
      assert v <= 100.0 by {
        assert (part as real) <= total;
      }
      Percent(v)
    else
      ZeroShare
  }

  /** The `marketStats` block computed from a loaded question. */
  function ComputeStats(q: QuestionDetail): (s: Stats)
    ensures s.yesHolders == |q.yesTokenHoldings| && s.noHolders == |q.noTokenHoldings|
    ensures s.totalParticipants == s.yesHolders + s.noHolders
    ensures s.totalVolume == Volume(q.yesToken) + Volume(q.noToken)
    ensures s.totalYesTokens == q.totalYesTokens && s.totalNoTokens == q.totalNoTokens
    ensures s.yesPercentage == ShareOf(q.totalYesTokens, q.totalNoTokens)
    ensures s.noPercentage == ShareOf(q.totalNoTokens, q.totalYesTokens)
  {
    Stats(
      |q.yesTokenHoldings| + |q.noTokenHoldings|,
      Volume(q.yesToken) + Volume(q.noToken),
      |q.yesTokenHoldings|,
      |q.noTokenHoldings|,
      q.totalYesTokens,
      q.totalNoTokens,
      ShareOf(q.totalYesTokens, q.totalNoTokens),
      ShareOf(q.totalNoTokens, q.totalYesTokens))
  }

  /** The lookup result: not found when the store has no such question, else the statistics. */
  function GetQuestionById(q: Option<QuestionDetail>): (r: DetailResult)
    ensures r.NotFound? <==> q.None?
    ensures r.Found? ==> r.question == q.value && r.marketStats == ComputeStats(q.value)
  {
    match q
    case None => NotFound
    case Some(question) => Found(question, ComputeStats(question))
  }

  /** When both sides have tokens in circulation, the two unrounded shares add up to 100. */
  lemma SharesSumTo100(q: QuestionDetail)
    requires q.totalYesTokens > 0 && q.totalNoTokens > 0
    ensures var s := ComputeStats(q);
            s.yesPercentage.Percent? && s.noPercentage.Percent?
            && s.yesPercentage.value + s.noPercentage.value == 100.0
  {
    var s := ComputeStats(q);
    var yes, no := q.totalYesTokens as real, q.totalNoTokens as real;
    var total := yes + no;
    assert (q.totalYesTokens + q.totalNoTokens) as real == total;
    assert (q.totalNoTokens + q.totalYesTokens) as real == total;
    var y, n := s.yesPercentage.value, s.noPercentage.value;
    assert y * total == yes * 100.0;
    assert n * total == no * 100.0;
    var d := y + n - 100.0;
    assert d * total == y * total + n * total - 100.0 * total;
    assert d * total == 0.0;
    ZeroFactor(d, total);
  }

  /** A product with a positive factor vanishes only when the other factor does. */
  lemma ZeroFactor(a: real, t: real)
    requires t > 0.0 && a * t == 0.0
    ensures a == 0.0
  {
  }

  /** A side with no tokens in circulation reads `'0'`, and the other side then holds everything. */
  lemma OneSidedMarket(q: QuestionDetail)
    requires q.totalYesTokens > 0 && q.totalNoTokens == 0
    ensures var s := ComputeStats(q);
            s.yesPercentage == Percent(100.0) && s.noPercentage == ZeroShare
  {
  }

  /** An empty market reads `'0'` on both sides. */
  lemma EmptyMarket(q: QuestionDetail)
    requires q.totalYesTokens == 0 && q.totalNoTokens == 0
    ensures var s := ComputeStats(q);
            s.yesPercentage == ZeroShare && s.noPercentage == ZeroShare
  {
  }
}
