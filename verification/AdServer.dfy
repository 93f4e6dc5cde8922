/** The ad tables, changed in place by each request. */
module AdServer {
  import opened Basics
  import opened Ads

  class AdServer {
    var now: int
    var campaigns: seq<Campaign>
    var creatives: seq<Creative>
    var impressions: seq<Impression>
    var clicks: seq<Click>

    function View(): Board
      reads this
    {
      Board(now, campaigns, creatives, impressions, clicks)
    }

    constructor ()
      ensures Init(View())
    {
      now, campaigns, creatives, impressions, clicks := 0, [], [], [], [];
    }

    method CreativeOf(c: nat) returns (k: Option<nat>)
      ensures k == FirstActive(creatives, c, 0)
    {
      for i := 0 to |creatives|
        invariant FirstActive(creatives, c, 0) == FirstActive(creatives, c, i)
      {
        if creatives[i] == Creative(c, true) {
          return Some(i);
        }
      }
      return None;
    }

    /** The best eligible campaign, the first of equals. */
    method BestCampaign(scores: Option<seq<int>>) returns (best: Option<nat>)
      ensures IsChoice(View(), scores, |campaigns|, best)
      ensures best == Choose(View(), scores, |campaigns|)
    {
      best := None;
      var bestScore := -1;
      for c := 0 to |campaigns|
        invariant best == Choose(View(), scores, c)
        invariant best.Some? ==> best.value < c && bestScore == Weight(View(), scores, best.value)
      {
        var creative := CreativeOf(c);
        var campaign := campaigns[c];
        if Running(campaign, now) && campaign.spent < campaign.budget && creative.Some? {
          var score := if scores.None? then campaign.cpm else if c < |scores.value| then scores.value[c] else 0;
          if best.None? {
            best, bestScore := Some(c), if score > -1 then score else -1;
          } else if score > bestScore {
            best, bestScore := Some(c), score;
          }
        }
      }
    }

    method ServeAd(scores: Option<seq<int>>, client: nat) returns (served: Option<nat>)
      modifies this`campaigns, this`impressions
      ensures View() == Serve(old(View()), scores, client)
      ensures served.Some? <==> exists c :: 0 <= c < |old(campaigns)| && Eligible(old(View()), c)
    {
      var best := BestCampaign(scores);
      if best.None? {
        return None;
      }
      var c := best.value;
      assert Eligible(View(), c);
      var creative := CreativeOf(c);
      var recent := false;
      for i := 0 to |impressions|
        invariant recent <==> exists j :: 0 <= j < i && Recent(impressions[j], c, client, now)
        invariant unchanged(this)
      {
        if Recent(impressions[i], c, client, now) {
          recent := true;
        }
      }
      var billable := !recent;
      var cost := if billable then RecordedCost(campaigns[c].cpm) else 0;
      impressions := impressions + [Impression(c, creative.value, client, cost, now, billable)];
      if billable {
        campaigns := campaigns[c := campaigns[c].(spent := campaigns[c].spent + Debit(campaigns[c].cpm))];
      }
      return Some(c);
    }

    method Click(i: nat, c: nat, k: nat, client: nat) returns (recorded: bool)
      modifies this`clicks
      ensures View() == RecordClick(old(View()), i, c, k, client)
      ensures recorded <==> CanClick(old(View()), i, c, k, client)
    {
      if k >= |creatives| || creatives[k].campaign != c {
        return false;
      }
      if !creatives[k].active || c >= |campaigns| || !campaigns[c].active {
        return false;
      }
      if i >= |impressions| || impressions[i].campaign != c || impressions[i].creative != k
        || impressions[i].client != client {
        return false;
      }
      for j := 0 to |clicks|
        invariant forall p :: 0 <= p < j ==> clicks[p].impression != i
        invariant unchanged(this)
      {
        if clicks[j].impression == i {
          return false;
        }
      }
      clicks := clicks + [Ads.Click(i, c, k, client)];
      return true;
    }
  }
}
