/** SlashValidator and the slash tracker of fsm/byzantine.go. */
module Slashing {
  import opened Lib
  import opened Sums
  import opened Points
  import opened Ledgers
  import opened Machine
  import opened Transfers

  /** The part of a validator a slash reads and writes. */
  datatype Validator = Validator(stake: nat, committees: seq<ChainId>)

  /** Governance: the cap per committee and block, and whether protocol version 2 is on. */
  datatype Params = Params(maxSlash: nat, scoped: bool)

  type Tracker = map<(Address, ChainId), nat>

  function Without(ids: seq<ChainId>, id: ChainId): seq<ChainId> {
    if ids == [] then [] else if ids[0] == id then ids[1..] else [ids[0]] + Without(ids[1..], id)
  }

  /** Whether a slash of this percent takes effect at all, given what was slashed before in the block. */
  predicate Applies(v: Validator, chain: ChainId, tracked: nat, p: Params) {
    !p.scoped || (chain in v.committees && tracked < p.maxSlash)
  }

  predicate Ejects(tracked: nat, percent: nat, p: Params) { p.scoped && tracked + percent >= p.maxSlash }

  function Clipped(tracked: nat, percent: nat, p: Params): nat {
    if Ejects(tracked, percent, p) && tracked <= p.maxSlash then p.maxSlash - tracked else percent
  }

  function StakeAfter(stake: nat, percent: nat): nat {
    if percent >= 100 || stake == 0 then 0 else if percent == 0 then stake else MulDiv(stake, 100 - percent, 100)
  }

  datatype Slashed = Slashed(v: Validator, tracked: nat)

  /** One slash of one validator, by one committee. */
  function SlashOne(v: Validator, chain: ChainId, percent: nat, tracked: nat, p: Params): Slashed {
    if !Applies(v, chain, tracked, p) then Slashed(v, tracked) else
      var committees := if Ejects(tracked, percent, p) then Without(v.committees, chain) else v.committees;
      var cut := Clipped(tracked, percent, p);
      Slashed(Validator(StakeAfter(v.stake, cut), committees), if p.scoped then tracked + cut else tracked)
  }

  // ---- The bound ---------------------------------------------------------

  predicate DistinctIds(ids: seq<ChainId>) { forall i, j | 0 <= i < j < |ids| :: ids[i] != ids[j] }

  lemma {:induction false} WithoutRemoves(ids: seq<ChainId>, id: ChainId)
    requires DistinctIds(ids)
    ensures id !in Without(ids, id)
    ensures DistinctIds(Without(ids, id))
    ensures forall j | j != id :: j in Without(ids, id) <==> j in ids
  {
    if ids != [] && ids[0] != id {
      assert DistinctIds(ids[1..]);
      WithoutRemoves(ids[1..], id);
      var rest := Without(ids[1..], id);
      assert ids[0] !in rest by { assert ids[0] !in ids[1..]; }
      forall j | j != id ensures j in [ids[0]] + rest <==> j in ids {
        assert j in ids <==> j == ids[0] || j in ids[1..];
      }
    } else if ids != [] {
      assert DistinctIds(ids[1..]);
      assert forall j :: j in ids <==> j == ids[0] || j in ids[1..];
    }
  }

  lemma StakeFalls(stake: nat, percent: nat)
    ensures StakeAfter(stake, percent) <= stake
  {
    if 0 < percent < 100 { MulDivShare(stake, 100 - percent, 100); }
  }

  /** What a cut leaves is exactly the floor of the rest of the stake. */
  lemma CutExact(stake: nat, percent: nat)
    requires stake <= MAX && percent <= 100
    ensures 100 * StakeAfter(stake, percent) <= stake * (100 - percent) < 100 * (StakeAfter(stake, percent) + 1)
  {
    if 0 < percent < 100 && stake > 0 {
      MulDivExact(stake, 100 - percent, 100);
      QuotientTimes(stake * (100 - percent), 100);
    }
  }

  /** So a cut of p percent burns p hundredths of the stake, rounded up. */
  lemma BurnBound(stake: nat, percent: nat)
    requires stake <= MAX && percent <= 100
    ensures StakeAfter(stake, percent) <= stake
    ensures stake * percent <= 100 * (stake - StakeAfter(stake, percent)) <= stake * percent + 99
  {
    StakeFalls(stake, percent);
    CutExact(stake, percent);
    assert stake * (100 - percent) == stake * 100 - stake * percent;
  }

  // ---- On the ledger -----------------------------------------------------

  /** Validators' stake is kept in the ledger, their committee lists beside it. */
  datatype Stakes = Stakes(ledger: Ledger, committees: map<Address, seq<ChainId>>, tracker: Tracker)

  function ValidatorAt(s: Stakes, a: Address): Validator
    requires a in s.committees
  {
    Validator(StakeOf(s.ledger, a), s.committees[a])
  }

  function Slash(s: Stakes, a: Address, chain: ChainId, percent: nat, p: Params): Result<Stakes>
    requires a in s.committees
  {
    var v := ValidatorAt(s, a);
    var tracked := Get(s.tracker, (a, chain));
    if !Applies(v, chain, tracked, p) then Ok(s) else
      var out := SlashOne(v, chain, percent, tracked, p);
      var tracker := if p.scoped then s.tracker[(a, chain) := out.tracked] else s.tracker;
      var burned := WrapSub(v.stake, out.v.stake);
      match SubFromSupply(s.ledger, burned)
      case Err(e) => Err(e)
      case Ok(l) =>
        // a validator left without stake is deleted
        var committees := if out.v.stake == 0 then s.committees - {a} else s.committees[a := out.v.committees];
        Ok(Stakes(SetStake(l, a, out.v.stake), committees, tracker))
  }

  /** Exactly what one slash does. It takes effect unless, under protocol version 2, the validator is not in the
      committee or the committee has reached the cap. Then the stake becomes the floor of what the cut leaves, and the
      supply falls alike; the cut is the percent, but no more than the cap still allows, and is added to the tracked
      percent; a committee that reaches the cap is cut out of the list; a validator left without stake is gone. */
  lemma {:induction false} SlashExact(s: Stakes, a: Address, chain: ChainId, percent: nat, p: Params)
    requires Conserved(s.ledger) && a in s.committees && (p.scoped ==> p.maxSlash <= 100) && (!p.scoped ==> percent <= 100)
    ensures Slash(s, a, chain, percent, p).Ok?
    ensures var t, ids, tracked := Slash(s, a, chain, percent, p).value, s.committees[a], Get(s.tracker, (a, chain));
            var stake, after := StakeOf(s.ledger, a), StakeOf(t.ledger, a);
            if p.scoped && (chain !in ids || tracked >= p.maxSlash) then t == s else
              var reached := p.scoped && tracked + percent >= p.maxSlash;
              var cut := if reached then p.maxSlash - tracked else percent;
              && 100 * after <= stake * (100 - cut) < 100 * (after + 1) && after <= stake
              && t.ledger.supply == s.ledger.supply - (stake - after)
              && (forall b | b != a :: StakeOf(t.ledger, b) == StakeOf(s.ledger, b))
              && t.tracker == (if p.scoped then s.tracker[(a, chain) := tracked + cut] else s.tracker)
              && t.committees == if after == 0 then s.committees - {a}
                                 else s.committees[a := if reached then Without(ids, chain) else ids]
  {
    var v, tracked := ValidatorAt(s, a), Get(s.tracker, (a, chain));
    if Applies(v, chain, tracked, p) {
      var cut := Clipped(tracked, percent, p);
      var after := StakeAfter(v.stake, cut);
      BurnedExact(s.ledger, a, cut);
      CutExact(v.stake, cut);
      SumPut(s.ledger.stakes, a, after);
    }
  }

  lemma BurnedExact(l: Ledger, a: Address, cut: nat)
    requires Conserved(l)
    ensures var stake := StakeOf(l, a);
            var after := StakeAfter(stake, cut);
            after <= stake <= MAX && WrapSub(stake, after) == stake - after <= l.supply
  {
    SumPut(l.stakes, a, 0);
    StakeFalls(StakeOf(l, a), cut);
  }

  /** Unknown validators are skipped; the same one may be listed more than once. */
  function SlashFrom(s: Stakes, list: seq<Address>, k: nat, chain: ChainId, percent: nat, p: Params): Result<Stakes>
    requires k <= |list|
    decreases |list| - k
  {
    if k == |list| then Ok(s)
    else if list[k] !in s.committees then SlashFrom(s, list, k + 1, chain, percent, p)
    else
      match Slash(s, list[k], chain, percent, p)
      case Err(e) => Err(e)
      case Ok(s') => SlashFrom(s', list, k + 1, chain, percent, p)
  }

  /** A slash burns tokens: the stake and the supply record fall by the same amount, and nothing else moves. */
  ghost predicate Burned(l: Ledger, l': Ledger) {
    && Conserved(l') && Tokens(l') <= Tokens(l)
    && l'.accounts == l.accounts && l'.pools == l.pools
  }

  lemma SlashConserves(s: Stakes, a: Address, chain: ChainId, percent: nat, p: Params)
    requires Conserved(s.ledger) && a in s.committees
    ensures Slash(s, a, chain, percent, p).Ok?
    ensures Burned(s.ledger, Slash(s, a, chain, percent, p).value.ledger)
  {
    var v := ValidatorAt(s, a);
    var tracked := Get(s.tracker, (a, chain));
    SumPut(s.ledger.stakes, a, 0);
    if Applies(v, chain, tracked, p) {
      StakeFalls(v.stake, Clipped(tracked, percent, p));
      var out := SlashOne(v, chain, percent, tracked, p);
      WrapSubExact(v.stake, out.v.stake);
      SetStakeTokens(s.ledger.(supply := s.ledger.supply - (v.stake - out.v.stake)), a, out.v.stake);
    }
  }

  lemma {:induction false} SlashesConserve(s: Stakes, list: seq<Address>, k: nat, chain: ChainId, percent: nat, p: Params)
    requires Conserved(s.ledger) && k <= |list|
    ensures SlashFrom(s, list, k, chain, percent, p).Ok?
    ensures Burned(s.ledger, SlashFrom(s, list, k, chain, percent, p).value.ledger)
    decreases |list| - k
  {
    if k < |list| {
      if list[k] in s.committees {
        SlashConserves(s, list[k], chain, percent, p);
        SlashesConserve(Slash(s, list[k], chain, percent, p).value, list, k + 1, chain, percent, p);
      } else {
        SlashesConserve(s, list, k + 1, chain, percent, p);
      }
    }
  }

  lemma SlashKeepsValidators(s: Stakes, a: Address, chain: ChainId, percent: nat, p: Params)
    requires a in s.committees && Slash(s, a, chain, percent, p).Ok? && OnlyValidatorsStake(s.ledger, s.committees)
    ensures OnlyValidatorsStake(Slash(s, a, chain, percent, p).value.ledger, Slash(s, a, chain, percent, p).value.committees)
  {
    var t := Slash(s, a, chain, percent, p).value;
    forall v | v !in t.committees ensures StakeOf(t.ledger, v) == 0 {
      if v != a { assert StakeOf(s.ledger, v) == 0; }
    }
  }

  lemma {:induction false} SlashesKeepValidators(s: Stakes, list: seq<Address>, k: nat, chain: ChainId, percent: nat, p: Params)
    requires k <= |list| && SlashFrom(s, list, k, chain, percent, p).Ok? && OnlyValidatorsStake(s.ledger, s.committees)
    ensures var t := SlashFrom(s, list, k, chain, percent, p).value; OnlyValidatorsStake(t.ledger, t.committees)
    decreases |list| - k
  {
    if k < |list| {
      if list[k] in s.committees {
        SlashKeepsValidators(s, list[k], chain, percent, p);
        SlashesKeepValidators(Slash(s, list[k], chain, percent, p).value, list, k + 1, chain, percent, p);
      } else {
        SlashesKeepValidators(s, list, k + 1, chain, percent, p);
      }
    }
  }

  // ---- The bound over a block --------------------------------------------

  /** One call of SlashValidators within a block. */
  datatype Call = Call(list: seq<Address>, chain: ChainId, percent: nat)

  /** All calls of a block, whatever committees they come from. */
  function SlashBlock(s: Stakes, calls: seq<Call>, p: Params): Result<Stakes>
    decreases |calls|
  {
    if calls == [] then Ok(s) else
      match SlashFrom(s, calls[0].list, 0, calls[0].chain, calls[0].percent, p)
      case Err(e) => Err(e)
      case Ok(s') => SlashBlock(s', calls[1..], p)
  }

  /** One entry of a list: unknown validators are passed over. */
  function SlashEntry(s: Stakes, b: Address, chain: ChainId, percent: nat, p: Params): Stakes {
    if b !in s.committees then s else match Slash(s, b, chain, percent, p) case Ok(s') => s' case Err(_) => s
  }

  function Fallen(before: nat, after: nat): nat { if after <= before then before - after else 0 }

  /** The percent a slash may still cut, given what was slashed before in the block. */
  function Cut(tracked: nat, percent: nat, p: Params): nat {
    if tracked <= p.maxSlash then Min(percent, p.maxSlash - tracked) else percent
  }

  /** What was burned from validator a on behalf of committee c; what was due, as stake times percent at the time of
      each slash that took effect; and how many those were. */
  datatype Toll = Toll(burned: nat, due: nat, applied: nat)
  {
    function Plus(t: Toll): Toll { Toll(burned + t.burned, due + t.due, applied + t.applied) }
  }

  const NO_TOLL: Toll := Toll(0, 0, 0)

  function Due(stake: nat, cut: nat): nat { MulNonNeg(stake, cut); stake * cut }

  function EntryToll(s: Stakes, b: Address, chain: ChainId, percent: nat, p: Params, a: Address, c: ChainId): Toll {
    var tracked := Get(s.tracker, (a, c));
    if b != a || chain != c || a !in s.committees || c !in s.committees[a] || tracked >= p.maxSlash then NO_TOLL
    else Toll(Fallen(StakeOf(s.ledger, a), StakeOf(SlashEntry(s, b, chain, percent, p).ledger, a)),
              Due(StakeOf(s.ledger, a), Cut(tracked, percent, p)), 1)
  }

  function ListToll(s: Stakes, list: seq<Address>, k: nat, chain: ChainId, percent: nat, p: Params, a: Address, c: ChainId): Toll
    requires k <= |list|
    decreases |list| - k
  {
    if k == |list| then NO_TOLL else
      var one := EntryToll(s, list[k], chain, percent, p, a, c);
      var more := ListToll(SlashEntry(s, list[k], chain, percent, p), list, k + 1, chain, percent, p, a, c);
      one.Plus(more)
  }

  function BlockToll(s: Stakes, calls: seq<Call>, p: Params, a: Address, c: ChainId): Toll
    decreases |calls|
  {
    if calls == [] then NO_TOLL else
      var one := ListToll(s, calls[0].list, 0, calls[0].chain, calls[0].percent, p, a, c);
      match SlashFrom(s, calls[0].list, 0, calls[0].chain, calls[0].percent, p)
      case Err(_) => one
      case Ok(s') =>
        var more := BlockToll(s', calls[1..], p, a, c);
        one.Plus(more)
  }

  /** Membership and tracker of validator a with respect to committee c, having started the block in `ids`. */
  predicate Scoped(ids: seq<ChainId>, s: Stakes, a: Address, c: ChainId, p: Params) {
    && Get(s.tracker, (a, c)) <= p.maxSlash
    && (a !in s.committees ==> StakeOf(s.ledger, a) == 0)
    && (a in s.committees ==>
          && DistinctIds(s.committees[a])
          && (c in ids ==> (Get(s.tracker, (a, c)) == p.maxSlash <==> c !in s.committees[a]))
          && (c !in ids ==> c !in s.committees[a]))
  }

  /** What c's slashes have burned is what was due, rounded up each time, and what was due is bounded by the percent
      tracked for them. */
  predicate Charged(first: nat, s: Stakes, a: Address, c: ChainId, toll: Toll) {
    && StakeOf(s.ledger, a) <= first <= MAX
    && toll.due <= first * Get(s.tracker, (a, c))
    && toll.due <= 100 * toll.burned <= toll.due + 99 * toll.applied
  }

  /** A slash of somebody else, or by another committee, or one that does not take effect. */
  lemma OtherEntry(s: Stakes, b: Address, chain: ChainId, percent: nat, p: Params, a: Address, c: ChainId)
    requires p.scoped && (a in s.committees ==> DistinctIds(s.committees[a]))
    requires EntryToll(s, b, chain, percent, p, a, c).applied == 0
    ensures var s' := SlashEntry(s, b, chain, percent, p);
            && Get(s'.tracker, (a, c)) == Get(s.tracker, (a, c))
            && StakeOf(s'.ledger, a) <= StakeOf(s.ledger, a)
            && (a !in s.committees ==> a !in s'.committees && StakeOf(s'.ledger, a) == StakeOf(s.ledger, a))
            && (a in s.committees && a !in s'.committees ==> StakeOf(s'.ledger, a) == 0)
            && (a in s'.committees ==> DistinctIds(s'.committees[a]) && (c in s'.committees[a] <==> c in s.committees[a]))
  {
    if b in s.committees {
      var v := ValidatorAt(s, b);
      StakeFalls(v.stake, Clipped(Get(s.tracker, (b, chain)), percent, p));
      SumPut(s.ledger.stakes, b, SlashOne(v, chain, percent, Get(s.tracker, (b, chain)), p).v.stake);
      if b == a { WithoutRemoves(s.committees[a], chain); }
    }
  }

  /** The numbers of one slash that takes effect: its burn is charged to the percent it adds. */
  lemma ChargeAdds(first: nat, stake: nat, tracked: nat, cut: nat, toll: Toll)
    requires stake <= first <= MAX && cut <= 100
    requires toll.due <= first * tracked && toll.due <= 100 * toll.burned <= toll.due + 99 * toll.applied
    ensures StakeAfter(stake, cut) <= stake
    ensures var t := toll.Plus(Toll(stake - StakeAfter(stake, cut), Due(stake, cut), 1));
            t.due <= first * (tracked + cut) && t.due <= 100 * t.burned <= t.due + 99 * t.applied
  {
    BurnBound(stake, cut);
    MulMono(stake, first, cut);
    assert first * (tracked + cut) == first * tracked + first * cut;
  }

  /** A slash of a by c that takes effect. */
  lemma OwnEntry(first: nat, ids: seq<ChainId>, s: Stakes, percent: nat, p: Params, a: Address, c: ChainId, toll: Toll)
    requires p.scoped && 0 < p.maxSlash <= 100 && Conserved(s.ledger) && c in ids
    requires Scoped(ids, s, a, c, p) && Charged(first, s, a, c, toll)
    requires EntryToll(s, a, c, percent, p, a, c).applied == 1
    ensures var s', one := SlashEntry(s, a, c, percent, p), EntryToll(s, a, c, percent, p, a, c);
            Scoped(ids, s', a, c, p) && Charged(first, s', a, c, toll.Plus(one))
  {
    var v := ValidatorAt(s, a);
    var tracked := Get(s.tracker, (a, c));
    var cut := Clipped(tracked, percent, p);
    assert cut == Cut(tracked, percent, p);
    SlashConserves(s, a, c, percent, p);
    ChargeAdds(first, v.stake, tracked, cut, toll);
    WithoutRemoves(v.committees, c);
    SumPut(s.ledger.stakes, a, StakeAfter(v.stake, cut));
  }

  lemma EntryKeeps(first: nat, ids: seq<ChainId>, s: Stakes, b: Address, chain: ChainId, percent: nat, p: Params,
                   a: Address, c: ChainId, toll: Toll)
    requires p.scoped && 0 < p.maxSlash <= 100 && Conserved(s.ledger)
    requires Scoped(ids, s, a, c, p) && Charged(first, s, a, c, toll)
    ensures var s', one := SlashEntry(s, b, chain, percent, p), EntryToll(s, b, chain, percent, p, a, c);
            && Conserved(s'.ledger)
            && Scoped(ids, s', a, c, p) && Charged(first, s', a, c, toll.Plus(one))
  {
    if b in s.committees { SlashConserves(s, b, chain, percent, p); }
    if EntryToll(s, b, chain, percent, p, a, c).applied == 0 {
      OtherEntry(s, b, chain, percent, p, a, c);
    } else {
      OwnEntry(first, ids, s, percent, p, a, c, toll);
    }
  }

  lemma {:induction false} ListKeeps(first: nat, ids: seq<ChainId>, s: Stakes, list: seq<Address>, k: nat, chain: ChainId, percent: nat,
                                     p: Params, a: Address, c: ChainId, toll: Toll)
    requires k <= |list| && p.scoped && 0 < p.maxSlash <= 100 && Conserved(s.ledger)
    requires Scoped(ids, s, a, c, p) && Charged(first, s, a, c, toll)
    ensures var out, more := SlashFrom(s, list, k, chain, percent, p), ListToll(s, list, k, chain, percent, p, a, c);
            && out.Ok? && Conserved(out.value.ledger)
            && Scoped(ids, out.value, a, c, p)
            && Charged(first, out.value, a, c, toll.Plus(more))
    decreases |list| - k
  {
    if k < |list| {
      var one := EntryToll(s, list[k], chain, percent, p, a, c);
      if list[k] in s.committees { SlashConserves(s, list[k], chain, percent, p); }
      EntryKeeps(first, ids, s, list[k], chain, percent, p, a, c, toll);
      ListKeeps(first, ids, SlashEntry(s, list[k], chain, percent, p), list, k + 1, chain, percent, p, a, c,
                toll.Plus(one));
    }
  }

  lemma {:induction false} BlockKeeps(first: nat, ids: seq<ChainId>, s: Stakes, calls: seq<Call>, p: Params,
                                      a: Address, c: ChainId, toll: Toll)
    requires p.scoped && 0 < p.maxSlash <= 100 && Conserved(s.ledger)
    requires Scoped(ids, s, a, c, p) && Charged(first, s, a, c, toll)
    ensures var out, more := SlashBlock(s, calls, p), BlockToll(s, calls, p, a, c);
            && out.Ok? && Conserved(out.value.ledger)
            && Scoped(ids, out.value, a, c, p)
            && Charged(first, out.value, a, c, toll.Plus(more))
    decreases |calls|
  {
    if calls != [] {
      var call := calls[0];
      var one := ListToll(s, call.list, 0, call.chain, call.percent, p, a, c);
      ListKeeps(first, ids, s, call.list, 0, call.chain, call.percent, p, a, c, toll);
      BlockKeeps(first, ids, SlashFrom(s, call.list, 0, call.chain, call.percent, p).value, calls[1..], p, a, c,
                 toll.Plus(one));
    }
  }

  /** Slash bound, under protocol version 2, over all slashes of a block: any lists, committees and percents in
      any order. Nothing fails and the books stay right; and for every validator and committee the tracked
      percent stays within the cap; a validator that is gone has no stake left; one that is still there has
      reached the cap of a committee it was in exactly when it is out of that committee; and that committee
      burned what was due each time, rounded up to a token, and no more than the cap's share of the first stake
      plus less than one token per slash. */
  lemma {:induction false} SlashBound(s: Stakes, calls: seq<Call>, p: Params, a: Address, c: ChainId)
    requires p.scoped && 0 < p.maxSlash <= 100 && Conserved(s.ledger)
    requires s.tracker == map[] && a in s.committees && DistinctIds(s.committees[a])
    ensures SlashBlock(s, calls, p).Ok?
    ensures var t, toll := SlashBlock(s, calls, p).value, BlockToll(s, calls, p, a, c);
            && Conserved(t.ledger)
            && Get(t.tracker, (a, c)) <= p.maxSlash
            && (a !in t.committees ==> StakeOf(t.ledger, a) == 0)
            && (a in t.committees && c in s.committees[a] ==>
                  (Get(t.tracker, (a, c)) == p.maxSlash <==> c !in t.committees[a]))
            && StakeOf(t.ledger, a) <= StakeOf(s.ledger, a)
            && toll.due <= 100 * toll.burned <= toll.due + 99 * toll.applied
            && 100 * toll.burned <= StakeOf(s.ledger, a) * p.maxSlash + 99 * toll.applied
  {
    var first := StakeOf(s.ledger, a);
    SumPut(s.ledger.stakes, a, 0);
    BlockKeeps(first, s.committees[a], s, calls, p, a, c, NO_TOLL);
    MulMono(Get(SlashBlock(s, calls, p).value.tracker, (a, c)), p.maxSlash, first);
  }

  // ---- The handlers ------------------------------------------------------

  function StakesOf(s: StateMachine): Stakes
    reads s`ledger, s`committees, s`slashTracker
  {
    Stakes(s.ledger, s.committees, s.slashTracker)
  }

  /** The loop that ejects: find the committee and cut it out of the list. */
  method Eject(ids: seq<ChainId>, id: ChainId) returns (out: seq<ChainId>)
    ensures out == Without(ids, id)
  {
    for i := 0 to |ids|
      invariant ids[..i] + Without(ids[i..], id) == Without(ids, id)
    {
      assert ids[i..][1..] == ids[i + 1..];
      if ids[i] == id { return ids[..i] + ids[i + 1..]; }
      assert ids[..i] + ([ids[i]] + Without(ids[i + 1..], id)) == ids[..i + 1] + Without(ids[i + 1..], id);
    }
    return ids;
  }

  /** The three cases of SlashValidator's switch. */
  method ReduceStake(stake: nat, percent: nat) returns (after: nat)
    ensures after == StakeAfter(stake, percent)
  {
    if percent >= 100 || stake == 0 { return 0; }
    if percent == 0 { return stake; }
    return MulDiv(stake, 100 - percent, 100);
  }

  method SlashValidator(s: StateMachine, a: Address, chain: ChainId, percent: nat, p: Params) returns (r: Result<()>)
    requires a in s.committees
    modifies s`ledger, s`committees, s`slashTracker
    ensures match Slash(old(StakesOf(s)), a, chain, percent, p)
            case Ok(t) => r == Ok(()) && StakesOf(s) == t
            case Err(e) => r == Err(e)
  {
    var newCommittees, percent := s.committees[a], percent;
    if p.scoped {
      if chain !in newCommittees { return Ok(()); }
      var slashTotal := Get(s.slashTracker, (a, chain));
      if slashTotal >= p.maxSlash { return Ok(()); }
      if slashTotal + percent >= p.maxSlash {
        percent := p.maxSlash - slashTotal;
        newCommittees := Eject(newCommittees, chain);
      }
      s.slashTracker := s.slashTracker[(a, chain) := slashTotal + percent];
    }
    var stake := StakeOf(s.ledger, a);
    var after := ReduceStake(stake, percent);
    var burned := WrapSub(stake, after);
    if s.ledger.supply < burned { return Err(InsufficientFunds); }
    s.ledger := SetStake(s.ledger.(supply := s.ledger.supply - burned), a, after);
    if after == 0 {
      s.committees := s.committees - {a};
    } else {
      s.committees := s.committees[a := newCommittees];
    }
    return Ok(());
  }

  method SlashValidators(s: StateMachine, list: seq<Address>, chain: ChainId, percent: nat, p: Params) returns (r: Result<()>)
    modifies s`ledger, s`committees, s`slashTracker
    ensures match SlashFrom(old(StakesOf(s)), list, 0, chain, percent, p)
            case Ok(t) => r == Ok(()) && StakesOf(s) == t
            case Err(e) => r == Err(e)
  {
    for k := 0 to |list|
      invariant SlashFrom(old(StakesOf(s)), list, 0, chain, percent, p) == SlashFrom(StakesOf(s), list, k, chain, percent, p)
    {
      if list[k] in s.committees {
        var one := SlashValidator(s, list[k], chain, percent, p);
        if one.Err? { return one; }
      }
    }
    return Ok(());
  }
}
