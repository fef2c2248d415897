/** The currency and rank ledger: petal and ember balances, the total of all
    rewards earned, a rank index into an ascending threshold table, a one-shot
    rank-up flag and a power-up inventory. */
module Progress {

  datatype Rank = Rank(title: string, minXP: int)

  datatype Currency = Petals | Embers

  datatype ProgressState = ProgressState(
    petals: int,
    embers: int,
    totalXP: int,
    rank: int,
    showRankUpModal: bool,
    inventory: map<string, int>)

  /** A check-then-act operation's verdict and the state after it. */
  datatype Outcome = Outcome(ok: bool, state: ProgressState)

  const LastRank: int := 9

  /** The rank table, lowest first. */
  function Ranks(): (ranks: seq<Rank>)
    ensures |ranks| == LastRank + 1
    ensures ranks[0].minXP == 0
    ensures forall i, j :: 0 <= i < j < |ranks| ==> ranks[i].minXP < ranks[j].minXP
  {
    [ Rank("Initiate of Numbers", 0),
      Rank("Petal Adept", 100),
      Rank("Blossom Scholar", 250),
      Rank("Rune Weaver", 500),
      Rank("Flame Tactician", 900),
      Rank("Dragon's Pupil", 1400),
      Rank("Sakura Warden", 2000),
      Rank("Citadel Guardian", 2700),
      Rank("Celestial Forgeborn", 3500),
      Rank("Eternal Dualist", 5000) ]
  }

  /** The state a fresh store starts in. */
  function InitialProgress(): (s: ProgressState)
    ensures RankConsistent(s) && NonNegative(s) && !s.showRankUpModal
    ensures s.petals == 0 && s.embers == 0 && s.totalXP == 0 && s.rank == 0
    ensures s.inventory.Keys == {"freeze", "extraTime", "fiftyFifty"}
    ensures forall item :: item in s.inventory ==> s.inventory[item] == 0
  {
    RankForNothing();
    ProgressState(0, 0, 0, 0, false, map["freeze" := 0, "extraTime" := 0, "fiftyFifty" := 0])
  }

  /** A total of zero deserves the first rank. */
  lemma RankForNothing()
    ensures RankFor(0) == 0
  {
    var ranks := Ranks();
    assert forall j :: 0 < j <= LastRank ==> ranks[0].minXP < ranks[j].minXP;
    HighestReachedUnique(LastRank, 0, 0);
  }

  /** The highest rank index at or below `i` whose threshold `xp` reaches, or
      -1 when there is none. */
  function HighestReached(i: int, xp: int): (r: int)
    requires -1 <= i <= LastRank
    ensures -1 <= r <= i
    ensures r >= 0 ==> Ranks()[r].minXP <= xp
    ensures forall j :: r < j <= i ==> Ranks()[j].minXP > xp
    decreases i + 1
  {
    if i < 0 then -1
    else if Ranks()[i].minXP <= xp then i
    else HighestReached(i - 1, xp)
  }

  /** The rank a total of `xp` deserves: the largest index whose threshold is met. */
  function RankFor(xp: int): int {
    HighestReached(LastRank, xp)
  }

  /** The rank scan of the source: step up from `rank` while the next
      threshold is met. */
  function ClimbRank(rank: int, xp: int): (r: int)
    requires rank >= 0
    ensures r >= rank
    ensures r > rank ==> r <= LastRank
    ensures forall j :: rank < j <= r ==> Ranks()[j].minXP <= xp
    ensures r < LastRank ==> Ranks()[r + 1].minXP > xp
    decreases LastRank - rank
  {
    if rank < LastRank && xp >= Ranks()[rank + 1].minXP then ClimbRank(rank + 1, xp) else rank
  }

  /** A rank that the total has reached and that sits within the table. */
  predicate RankConsistent(s: ProgressState) {
    0 <= s.rank <= LastRank && s.rank == RankFor(s.totalXP)
  }

  predicate NonNegative(s: ProgressState) {
    && s.petals >= 0 && s.embers >= 0
    && forall item :: item in s.inventory ==> s.inventory[item] >= 0
  }

  /** From a rank whose threshold is met, the upward scan lands on exactly the
      rank the total deserves. */
  lemma ClimbFindsRankFor(rank: int, xp: int)
    requires rank >= 0
    ensures rank <= LastRank && Ranks()[rank].minXP <= xp ==> ClimbRank(rank, xp) == RankFor(xp)
  {
    if rank <= LastRank && Ranks()[rank].minXP <= xp {
      var r := ClimbRank(rank, xp);
      var ranks := Ranks();
      forall j | r < j <= LastRank
        ensures ranks[j].minXP > xp
      {
        assert ranks[r + 1].minXP <= ranks[j].minXP;
      }
      HighestReachedUnique(LastRank, xp, r);
    }
  }

  /** HighestReached is the only index meeting its own characterisation. */
  lemma {:induction false} HighestReachedUnique(i: int, xp: int, r: int)
    requires -1 <= r <= i <= LastRank
    requires r >= 0 ==> Ranks()[r].minXP <= xp
    requires forall j :: r < j <= i ==> Ranks()[j].minXP > xp
    ensures HighestReached(i, xp) == r
    decreases i
  {
    if i > r {
      HighestReachedUnique(i - 1, xp, r);
    }
  }

  /** Credit `amount` to the total and rescan the rank; the flag is raised
      only on a rank-up and otherwise left as it was. */
  function Credit(s: ProgressState, amount: int): (r: ProgressState)
    requires s.rank >= 0
    ensures r.totalXP == s.totalXP + amount
    ensures r.petals == s.petals && r.embers == s.embers && r.inventory == s.inventory
    ensures r.rank >= s.rank
    ensures r.rank > s.rank ==> r.showRankUpModal
    ensures r.rank == s.rank ==> r.showRankUpModal == s.showRankUpModal
    ensures RankConsistent(s) && amount >= 0 ==> RankConsistent(r)
  {
    var total := s.totalXP + amount;
    var rank := ClimbRank(s.rank, total);
    ClimbFindsRankFor(s.rank, total);
    if rank > s.rank then s.(totalXP := total, rank := rank, showRankUpModal := true)
    else s.(totalXP := total)
  }

  /** `addPetals(amount)`. */
  function AddPetals(s: ProgressState, amount: int): (r: ProgressState)
    requires s.rank >= 0
    ensures r.petals == s.petals + amount && r.totalXP == s.totalXP + amount
    ensures r.embers == s.embers && r.inventory == s.inventory
    ensures r.rank >= s.rank
    ensures r.showRankUpModal == (r.rank > s.rank || s.showRankUpModal)
    ensures RankConsistent(s) && amount >= 0 ==> RankConsistent(r)
    ensures NonNegative(s) && amount >= 0 ==> NonNegative(r)
  {
    var credited := Credit(s, amount);
    credited.(petals := s.petals + amount)
  }

  /** `addEmbers(amount)`. */
  function AddEmbers(s: ProgressState, amount: int): (r: ProgressState)
    requires s.rank >= 0
    ensures r.embers == s.embers + amount && r.totalXP == s.totalXP + amount
    ensures r.petals == s.petals && r.inventory == s.inventory
    ensures r.rank >= s.rank
    ensures r.showRankUpModal == (r.rank > s.rank || s.showRankUpModal)
    ensures RankConsistent(s) && amount >= 0 ==> RankConsistent(r)
    ensures NonNegative(s) && amount >= 0 ==> NonNegative(r)
  {
    var credited := Credit(s, amount);
    credited.(embers := s.embers + amount)
  }

  function Balance(s: ProgressState, currency: Currency): int {
    match currency
    case Petals => s.petals
    case Embers => s.embers
  }

  /** How many of `item` are held; an absent item counts as none. */
  function Held(inventory: map<string, int>, item: string): int {
    if item in inventory then inventory[item] else 0
  }

  /** A reward paid in either currency: that balance and the total grow by
      the amount, the other balance and the inventory stay, and the rank and
      flag follow the rescan rule. */
  function Earn(s: ProgressState, currency: Currency, amount: int): (r: ProgressState)
    requires s.rank >= 0
    ensures Balance(r, currency) == Balance(s, currency) + amount
    ensures forall other :: other != currency ==> Balance(r, other) == Balance(s, other)
    ensures r.totalXP == s.totalXP + amount && r.inventory == s.inventory
    ensures r.rank >= s.rank
    ensures r.showRankUpModal == (r.rank > s.rank || s.showRankUpModal)
    ensures RankConsistent(s) && amount >= 0 ==> RankConsistent(r)
  {
    match currency
    case Petals => AddPetals(s, amount)
    case Embers => AddEmbers(s, amount)
  }

  /** `buyItem(item, cost, currency)`: succeeds exactly when the balance covers
      the cost; then the balance pays and one more item is held. A refusal
      changes nothing. */
  function BuyItem(s: ProgressState, item: string, cost: int, currency: Currency): (r: Outcome)
    ensures r.ok <==> Balance(s, currency) >= cost
    ensures !r.ok ==> r.state == s
    ensures r.ok ==> Balance(r.state, currency) == Balance(s, currency) - cost
    ensures r.ok ==> r.state.inventory.Keys == s.inventory.Keys + {item}
    ensures r.ok ==> r.state.inventory[item] == Held(s.inventory, item) + 1
    ensures forall other :: other in s.inventory && other != item ==>
              r.state.inventory[other] == s.inventory[other]
    ensures currency == Petals ==> r.state.embers == s.embers
    ensures currency == Embers ==> r.state.petals == s.petals
    ensures r.state.totalXP == s.totalXP && r.state.rank == s.rank
    ensures r.state.showRankUpModal == s.showRankUpModal
    ensures NonNegative(s) && cost >= 0 ==> NonNegative(r.state)
  {
    if Balance(s, currency) >= cost then
      var inventory := s.inventory[item := Held(s.inventory, item) + 1];
      match currency
      case Petals => Outcome(true, s.(petals := s.petals - cost, inventory := inventory))
      case Embers => Outcome(true, s.(embers := s.embers - cost, inventory := inventory))
    else
      Outcome(false, s)
  }

  /** `consumeItem(item)`: succeeds exactly when one is held; then one fewer is
      held and nothing else changes. */
  function ConsumeItem(s: ProgressState, item: string): (r: Outcome)
    ensures r.ok <==> Held(s.inventory, item) > 0
    ensures !r.ok ==> r.state == s
    ensures r.ok ==> r.state.inventory.Keys == s.inventory.Keys
    ensures r.ok ==> r.state.inventory[item] == s.inventory[item] - 1
    ensures forall other :: other in s.inventory && other != item ==>
              r.state.inventory[other] == s.inventory[other]
    ensures r.state.petals == s.petals && r.state.embers == s.embers
    ensures r.state.totalXP == s.totalXP && r.state.rank == s.rank
    ensures r.state.showRankUpModal == s.showRankUpModal
    ensures NonNegative(s) ==> NonNegative(r.state)
  {
    if Held(s.inventory, item) > 0 then
      Outcome(true, s.(inventory := s.inventory[item := s.inventory[item] - 1]))
    else
      Outcome(false, s)
  }

  /** `closeRankUpModal()`: the UI has shown the rank-up. */
  function CloseRankUpModal(s: ProgressState): (r: ProgressState)
    ensures !r.showRankUpModal
    ensures r.petals == s.petals && r.embers == s.embers && r.totalXP == s.totalXP
    ensures r.rank == s.rank && r.inventory == s.inventory
  {
    s.(showRankUpModal := false)
  }

  /** A run of non-negative rewards never lowers the rank and keeps it the
      one the total deserves. */
  lemma {:induction false} RewardsKeepRankConsistent(s: ProgressState, rewards: seq<(Currency, nat)>)
    requires RankConsistent(s)
    ensures RankConsistent(ApplyRewards(s, rewards))
    ensures ApplyRewards(s, rewards).rank >= s.rank
    decreases |rewards|
  {
    if |rewards| > 0 {
      var next := Earn(s, rewards[0].0, rewards[0].1);
      RewardsKeepRankConsistent(next, rewards[1..]);
    }
  }

  function ApplyRewards(s: ProgressState, rewards: seq<(Currency, nat)>): ProgressState
    requires RankConsistent(s)
    decreases |rewards|
  {
    if |rewards| == 0 then s
    else ApplyRewards(Earn(s, rewards[0].0, rewards[0].1), rewards[1..])
  }
}
