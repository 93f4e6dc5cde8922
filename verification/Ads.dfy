/** Ad serving and billing. A campaign's price is in ten-thousandths of a real per thousand impressions, a recorded
    cost in millionths of a real, and a campaign's budget and spending in cents: the scales of the three columns, each
    of which rounds what is written to it. Times are in milliseconds. */
module Ads {
  import opened Basics
  import Pricing

  const DEDUPE_WINDOW: int := 60 * 1000

  datatype Campaign = Campaign(
    active: bool, startsAt: Option<int>, endsAt: Option<int>, budget: nat, spent: nat, cpm: nat)

  datatype Creative = Creative(campaign: nat, active: bool)

  /** `billed` is a history variable. */
  datatype Impression = Impression(campaign: nat, creative: nat, client: nat, cost: nat, at: int, billed: bool)

  datatype Click = Click(impression: nat, campaign: nat, creative: nat, client: nat)

  datatype Board = Board(
    now: int, campaigns: seq<Campaign>, creatives: seq<Creative>, impressions: seq<Impression>, clicks: seq<Click>)

  // ----- Money -----

  /** cpm / 1000 as the impression records it. */
  function RecordedCost(cpm: nat): nat {
    Pricing.Round(cpm, 10)
  }

  /** What adding cpm / 1000 to a whole number of cents leaves in a column of cents. */
  function Debit(cpm: nat): nat {
    Pricing.Round(cpm, 100000)
  }

  // ----- Choosing an ad -----

  predicate Running(c: Campaign, now: int) {
    && c.active && (c.startsAt.Some? ==> c.startsAt.value <= now) && (c.endsAt.Some? ==> c.endsAt.value >= now)
  }

  function FirstActive(creatives: seq<Creative>, c: nat, i: nat): (k: Option<nat>)
    ensures k.Some? ==> i <= k.value < |creatives| && creatives[k.value] == Creative(c, true)
    ensures k.None? ==> forall j :: i <= j < |creatives| ==> creatives[j] != Creative(c, true)
    decreases |creatives| - i
  {
    if i >= |creatives| then None
    else if creatives[i] == Creative(c, true) then Some(i)
    else FirstActive(creatives, c, i + 1)
  }

  predicate Eligible(b: Board, c: nat) {
    && c < |b.campaigns| && Running(b.campaigns[c], b.now) && b.campaigns[c].spent < b.campaigns[c].budget
    && FirstActive(b.creatives, c, 0).Some?
  }

  /** How the campaigns compete: by the signed-in user's relevance scores, or by price. */
  function Score(b: Board, scores: Option<seq<int>>, c: nat): int
    requires c < |b.campaigns|
  {
    match scores
    case Some(s) => if c < |s| then s[c] else 0
    case None => b.campaigns[c].cpm
  }

  /** The first of the best eligible campaigns among the first n. A score of -1 or less never displaces the first. */
  predicate IsChoice(b: Board, scores: Option<seq<int>>, n: nat, choice: Option<nat>)
    requires n <= |b.campaigns|
  {
    match choice
    case None => forall c :: 0 <= c < n ==> !Eligible(b, c)
    case Some(k) =>
      && k < n && Eligible(b, k)
      && (forall c :: 0 <= c < n && Eligible(b, c) ==> Better(b, scores, k, c))
      && (forall c :: 0 <= c < k && Eligible(b, c) ==> Weight(b, scores, c) < Weight(b, scores, k))
  }

  function Weight(b: Board, scores: Option<seq<int>>, c: nat): int
    requires c < |b.campaigns|
  {
    var s := Score(b, scores, c);
    if s < -1 then -1 else s
  }

  predicate Better(b: Board, scores: Option<seq<int>>, k: nat, c: nat)
    requires k < |b.campaigns| && c < |b.campaigns|
  {
    Weight(b, scores, k) >= Weight(b, scores, c)
  }

  function Choose(b: Board, scores: Option<seq<int>>, n: nat): (choice: Option<nat>)
    requires n <= |b.campaigns|
    ensures IsChoice(b, scores, n, choice)
  {
    if n == 0 then None
    else
      var best := Choose(b, scores, n - 1);
      if !Eligible(b, n - 1) then best
      else if best.None? || Weight(b, scores, n - 1) > Weight(b, scores, best.value) then Some(n - 1)
      else best
  }

  // ----- Serving and clicking -----

  predicate SeenRecently(b: Board, c: nat, client: nat) {
    exists i :: 0 <= i < |b.impressions| && Recent(b.impressions[i], c, client, b.now)
  }

  predicate Recent(imp: Impression, c: nat, client: nat, now: int) {
    imp.campaign == c && imp.client == client && imp.at > now - DEDUPE_WINDOW
  }

  function Serve(b: Board, scores: Option<seq<int>>, client: nat): Board {
    match Choose(b, scores, |b.campaigns|)
    case None => b
    case Some(c) => Show(b, c, FirstActive(b.creatives, c, 0).value, client, !SeenRecently(b, c, client))
  }

  function Show(b: Board, c: nat, k: nat, client: nat, billable: bool): Board
    requires c < |b.campaigns|
  {
    var campaign := b.campaigns[c];
    var cost := if billable then RecordedCost(campaign.cpm) else 0;
    b.(impressions := b.impressions + [Impression(c, k, client, cost, b.now, billable)],
       campaigns :=
         if billable then b.campaigns[c := campaign.(spent := campaign.spent + Debit(campaign.cpm))]
         else b.campaigns)
  }

  predicate CanClick(b: Board, i: nat, c: nat, k: nat, client: nat) {
    && k < |b.creatives| && b.creatives[k] == Creative(c, true) && c < |b.campaigns| && b.campaigns[c].active
    && i < |b.impressions| && b.impressions[i].campaign == c && b.impressions[i].creative == k
    && b.impressions[i].client == client
    && forall j :: 0 <= j < |b.clicks| ==> b.clicks[j].impression != i
  }

  function RecordClick(b: Board, i: nat, c: nat, k: nat, client: nat): Board {
    if CanClick(b, i, c, k, client) then b.(clicks := b.clicks + [Click(i, c, k, client)]) else b
  }

  datatype Step =
    | AddCampaign(startsAt: Option<int>, endsAt: Option<int>, budget: nat, cpm: nat)
    | SetActive(c: nat, active: bool)
    | AddCreative(c: nat)
    | ServeAd(scores: Option<seq<int>>, client: nat)
    | ClickAd(impression: nat, campaign: nat, creative: nat, clicker: nat)
    | Tick(millis: nat)

  function Next(b: Board, s: Step): Board {
    match s
    case AddCampaign(startsAt, endsAt, budget, cpm) =>
      b.(campaigns := b.campaigns + [Campaign(false, startsAt, endsAt, budget, 0, cpm)])
    case SetActive(c, active) =>
      if c < |b.campaigns| then b.(campaigns := b.campaigns[c := b.campaigns[c].(active := active)]) else b
    case AddCreative(c) => if c < |b.campaigns| then b.(creatives := b.creatives + [Creative(c, true)]) else b
    case ServeAd(scores, client) => Serve(b, scores, client)
    case ClickAd(i, c, k, client) => RecordClick(b, i, c, k, client)
    case Tick(millis) => b.(now := b.now + millis)
  }

  predicate Init(b: Board) {
    b.campaigns == [] && b.creatives == [] && b.impressions == [] && b.clicks == []
  }

  function Run(b: Board, steps: seq<Step>): Board {
    if |steps| == 0 then b else Next(Run(b, steps[..|steps| - 1]), steps[|steps| - 1])
  }

  // ----- Invariants -----

  /** The number of billed impressions of a campaign. */
  function Billed(imps: seq<Impression>, c: nat): nat {
    if |imps| == 0 then 0
    else Billed(imps[..|imps| - 1], c) + if imps[|imps| - 1].campaign == c && imps[|imps| - 1].billed then 1 else 0
  }

  /** The recorded costs of a campaign's impressions. */
  function CostSum(imps: seq<Impression>, c: nat): nat {
    if |imps| == 0 then 0
    else CostSum(imps[..|imps| - 1], c) + if imps[|imps| - 1].campaign == c then imps[|imps| - 1].cost else 0
  }

  predicate CampaignOk(b: Board, c: nat)
    requires c < |b.campaigns|
  {
    var campaign := b.campaigns[c];
    && campaign.spent == Debit(campaign.cpm) * Billed(b.impressions, c)
    && CostSum(b.impressions, c) == RecordedCost(campaign.cpm) * Billed(b.impressions, c)
    && (campaign.spent == 0 || campaign.spent < campaign.budget + Debit(campaign.cpm))
  }

  predicate Spaced(imps: seq<Impression>, i: nat, j: nat)
    requires i < |imps| && j < |imps|
  {
    imps[j].billed && imps[i].campaign == imps[j].campaign && imps[i].client == imps[j].client ==>
      imps[j].at >= imps[i].at + DEDUPE_WINDOW
  }

  predicate ClickOk(b: Board, click: Click) {
    && click.impression < |b.impressions|
    && var imp := b.impressions[click.impression];
       imp.campaign == click.campaign && imp.creative == click.creative && imp.client == click.client
  }

  ghost predicate Inv(b: Board) {
    && (forall c :: 0 <= c < |b.campaigns| ==> CampaignOk(b, c))
    && (forall i :: 0 <= i < |b.impressions| ==>
         b.impressions[i].at <= b.now && b.impressions[i].campaign < |b.campaigns|)
    && (forall i, j :: 0 <= i < j < |b.impressions| ==> Spaced(b.impressions, i, j))
    && (forall j :: 0 <= j < |b.clicks| ==> ClickOk(b, b.clicks[j]))
    && (forall i, j :: 0 <= i < j < |b.clicks| ==> b.clicks[i].impression != b.clicks[j].impression)
  }

  lemma SumsLast(imps: seq<Impression>, imp: Impression, c: nat)
    ensures Billed(imps + [imp], c) == Billed(imps, c) + if imp.campaign == c && imp.billed then 1 else 0
    ensures CostSum(imps + [imp], c) == CostSum(imps, c) + if imp.campaign == c then imp.cost else 0
  {
    assert (imps + [imp])[..|imps|] == imps;
  }

  lemma Absent(imps: seq<Impression>, c: nat)
    requires forall i :: 0 <= i < |imps| ==> imps[i].campaign != c
    ensures Billed(imps, c) == 0 && CostSum(imps, c) == 0
  {
  }

  lemma ShowKeepsCampaign(b: Board, c: nat, k: nat, client: nat, billable: bool, d: nat)
    requires c < |b.campaigns| && d < |b.campaigns| && CampaignOk(b, d) && b.campaigns[c].spent < b.campaigns[c].budget
    ensures CampaignOk(Show(b, c, k, client, billable), d)
  {
    var imp := Impression(c, k, client, if billable then RecordedCost(b.campaigns[c].cpm) else 0, b.now, billable);
    SumsLast(b.impressions, imp, d);
    OneMore(Debit(b.campaigns[d].cpm), Billed(b.impressions, d));
    OneMore(RecordedCost(b.campaigns[d].cpm), Billed(b.impressions, d));
  }

  lemma OneMore(price: nat, n: nat)
    ensures price * (n + 1) == price * n + price
  {
  }

  lemma ServeKeeps(b: Board, scores: Option<seq<int>>, client: nat)
    requires Inv(b)
    ensures Inv(Serve(b, scores, client))
  {
    var next := Serve(b, scores, client);
    match Choose(b, scores, |b.campaigns|) {
      case None =>
      case Some(c) =>
        forall d | 0 <= d < |b.campaigns| ensures CampaignOk(next, d) {
          ShowKeepsCampaign(b, c, FirstActive(b.creatives, c, 0).value, client, !SeenRecently(b, c, client), d);
        }
        var n := |b.impressions|;
        assert forall i :: 0 <= i < n ==> next.impressions[i] == b.impressions[i];
        forall i, j | 0 <= i < j < n + 1 ensures Spaced(next.impressions, i, j) {
          if j < n {
            assert Spaced(b.impressions, i, j);
          } else {
            assert next.impressions[j].billed ==> !Recent(b.impressions[i], c, client, b.now);
          }
        }
        forall j | 0 <= j < |b.clicks| ensures ClickOk(next, b.clicks[j]) {
          assert ClickOk(b, b.clicks[j]);
        }
    }
  }

  lemma NextKeeps(b: Board, s: Step)
    requires Inv(b)
    ensures Inv(Next(b, s))
  {
    var next := Next(b, s);
    if s.ServeAd? {
      ServeKeeps(b, s.scores, s.client);
    } else {
      forall c | 0 <= c < |next.campaigns| ensures CampaignOk(next, c) {
        if c < |b.campaigns| {
          assert CampaignOk(b, c);
        } else {
          Absent(b.impressions, c);
        }
      }
      forall i, j | 0 <= i < j < |next.impressions| ensures Spaced(next.impressions, i, j) {
        assert Spaced(b.impressions, i, j);
      }
      forall j | 0 <= j < |next.clicks| ensures ClickOk(next, next.clicks[j]) {
        assert j < |b.clicks| ==> ClickOk(b, b.clicks[j]);
      }
    }
  }

  lemma {:induction false} RunKeeps(b: Board, steps: seq<Step>)
    requires Init(b)
    ensures Inv(Run(b, steps))
  {
    if |steps| > 0 {
      RunKeeps(b, steps[..|steps| - 1]);
      NextKeeps(Run(b, steps[..|steps| - 1]), steps[|steps| - 1]);
    }
  }

  // ----- What billing promises -----

  /** In every run two billed impressions of one campaign to one client are at least 60 seconds apart (so is a billed
      one from any earlier one), and each impression is clicked at most once, with its own campaign, creative and
      client. */
  lemma BilledApartAndClickedOnce(b: Board, steps: seq<Step>)
    requires Init(b)
    ensures var v := Run(b, steps);
      && (forall i, j :: 0 <= i < j < |v.impressions| ==> Spaced(v.impressions, i, j))
      && (forall j :: 0 <= j < |v.clicks| ==> ClickOk(v, v.clicks[j]))
      && (forall i, j :: 0 <= i < j < |v.clicks| ==> v.clicks[i].impression != v.clicks[j].impression)
  {
    RunKeeps(b, steps);
  }

  /** In every run a campaign overspends by less than one impression's debit. */
  lemma {:induction false} OverspendsByLessThanOne(b: Board, steps: seq<Step>, c: nat)
    requires Init(b) && c < |Run(b, steps).campaigns|
    ensures var k := Run(b, steps).campaigns[c]; k.spent == 0 || k.spent < k.budget + Debit(k.cpm)
  {
    RunKeeps(b, steps);
    assert CampaignOk(Run(b, steps), c);
  }

  /** A cost is recorded in whole cents exactly when rounding it to cents loses nothing. */
  lemma WholeCents(cpm: nat)
    ensures 10000 * Debit(cpm) == RecordedCost(cpm) <==> RecordedCost(cpm) % 10000 == 0
  {
    var x := RecordedCost(cpm);
    assert 20 * x <= 2 * cpm + 10 < 20 * x + 20;
    if x % 10000 == 0 {
      var k := x / 10000;
      assert x == 10000 * k;
    }
  }

  lemma SameMultiple(debit: nat, cost: nat, n: nat)
    ensures 10000 * (debit * n) == cost * n <==> n == 0 || 10000 * debit == cost
  {
    var gap := 10000 * debit - cost;
    assert 10000 * (debit * n) - cost * n == gap * n;
    if gap > 0 && n > 0 { Pricing.MulMono(n, 1, gap); }
    if gap < 0 && n > 0 { Pricing.MulMono(n, gap, -1); }
  }

  /** In every run what a campaign has spent equals the recorded costs of its impressions exactly when it has not
      been billed or its cost per impression is a whole number of cents: the two columns round differently. */
  lemma SpentIsSumIff(b: Board, steps: seq<Step>, c: nat)
    requires Init(b) && c < |Run(b, steps).campaigns|
    ensures var v := Run(b, steps);
      10000 * v.campaigns[c].spent == CostSum(v.impressions, c)
      <==> Billed(v.impressions, c) == 0 || RecordedCost(v.campaigns[c].cpm) % 10000 == 0
  {
    RunKeeps(b, steps);
    var v := Run(b, steps);
    var cpm, n := v.campaigns[c].cpm, Billed(v.impressions, c);
    assert CampaignOk(v, c);
    WholeCents(cpm);
    SameMultiple(Debit(cpm), RecordedCost(cpm), n);
  }

  lemma AndThen(b: Board, steps: seq<Step>, s: Step)
    ensures Run(b, steps + [s]) == Next(Run(b, steps), s)
  {
    assert (steps + [s])[..|steps|] == steps;
  }

  /** At 4 a thousand one billed impression costs 0.4 cents on record, and takes nothing from the campaign's budget. */
  lemma CheapImpressionSpendsNothing() returns (steps: seq<Step>)
    ensures var v := Run(Board(0, [], [], [], []), steps);
      |v.campaigns| == 1 && v.campaigns[0].spent == 0 && Billed(v.impressions, 0) == 1
        && CostSum(v.impressions, 0) == 4000
  {
    var b := Board(0, [], [], [], []);
    steps := [];
    AndThen(b, steps, AddCampaign(None, None, 100, 40000)); steps := steps + [AddCampaign(None, None, 100, 40000)];
    AndThen(b, steps, SetActive(0, true)); steps := steps + [SetActive(0, true)];
    AndThen(b, steps, AddCreative(0)); steps := steps + [AddCreative(0)];
    var v := Run(b, steps);
    assert v == b.(campaigns := [Campaign(true, None, None, 100, 0, 40000)], creatives := [Creative(0, true)]);
    assert Eligible(v, 0);
    AndThen(b, steps, ServeAd(None, 0)); steps := steps + [ServeAd(None, 0)];
    assert Run(b, steps).impressions == [Impression(0, 0, 0, 4000, 0, true)];
    assert [Impression(0, 0, 0, 4000, 0, true)][..0] == [];
  }

  lemma HalfACent(cpm: nat)
    ensures Debit(cpm) == 0 <==> cpm < 50000
  {
  }

  /** At less than half a cent an impression nothing is ever spent, so no budget ever runs out; from half a cent up
      every billed impression spends. */
  lemma CheapIsFreeIff(b: Board, steps: seq<Step>, c: nat)
    requires Init(b) && c < |Run(b, steps).campaigns| && Billed(Run(b, steps).impressions, c) > 0
    ensures var k := Run(b, steps).campaigns[c]; k.spent == 0 <==> k.cpm < 50000
  {
    RunKeeps(b, steps);
    var v := Run(b, steps);
    var cpm, n := v.campaigns[c].cpm, Billed(v.impressions, c);
    assert CampaignOk(v, c);
    HalfACent(cpm);
    SameMultiple(Debit(cpm), 0, n);
  }
}
