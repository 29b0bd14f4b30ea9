/** The coin purse: internal/model/coins.go, internal/handler/coins.go and the coin methods of
    internal/store/player.go. */
module Coins {
  import opened Seqs

  const VALUE: map<string, int> := map["cp" := 1, "sp" := 10, "ep" := 50, "gp" := 100, "pp" := 1000]

  const MAX_AMOUNT := 1_000_000_000

  /** Amounts by denomination. */
  type Amounts = map<string, int>

  predicate IsDenomination(key: string) {
    key in VALUE
  }

  /** A purse has all five denominations. */
  predicate IsPurse(p: Amounts) {
    p.Keys == VALUE.Keys
  }

  function AmountOf(a: Amounts, key: string): int {
    if key in a then a[key] else 0
  }

  /** Copper value. */
  function Worth(a: Amounts): int {
    AmountOf(a, "cp") + 10 * AmountOf(a, "sp") + 50 * AmountOf(a, "ep") + 100 * AmountOf(a, "gp") + 1000 * AmountOf(a, "pp")
  }

  datatype ConversionError = Invalid | Uneven

  function ConvertedAmount(from: string, to: string, amount: int): Result<int, ConversionError> {
    if !IsDenomination(from) || !IsDenomination(to) || from == to || amount < 1 || amount > MAX_AMOUNT then Err(Invalid)
    else
      var total := amount * VALUE[from];
      if total % VALUE[to] != 0 then Err(Uneven) else Ok(total / VALUE[to])
  }

  // ---------------------------------------------------------------- request bodies

  datatype Json = Number(value: real) | Other

  predicate IsWhole(f: real) {
    f == f.Floor as real
  }

  predicate ValidDelta(key: string, raw: Json) {
    IsDenomination(key) && raw.Number? && IsWhole(raw.value) && -MAX_AMOUNT <= raw.value.Floor <= MAX_AMOUNT
  }

  function Deltas(body: map<string, Json>): Amounts {
    map k | k in body && body[k].Number? && body[k].value.Floor != 0 :: body[k].value.Floor
  }

  function ParseDeltas(body: map<string, Json>): Option<Amounts> {
    if (forall k :: k in body ==> ValidDelta(k, body[k])) && Deltas(body) != map[] then Some(Deltas(body)) else None
  }

  predicate OneOfFive(key: string) {
    key == "cp" || key == "sp" || key == "ep" || key == "gp" || key == "pp"
  }

  /** What a body asks to be added to a denomination. */
  function Asked(body: map<string, Json>, k: string): real {
    if k in body && body[k].Number? then body[k].value else 0.0
  }

  /** Whole numbers up to a thousand million for known denominations, not all of them zero. */
  predicate Proper(body: map<string, Json>) {
    && (forall k :: k in body ==>
          && OneOfFive(k) && body[k].Number? && body[k].value == body[k].value.Floor as real
          && -1_000_000_000.0 <= body[k].value <= 1_000_000_000.0)
    && exists k :: k in body && Asked(body, k) != 0.0
  }

  lemma ParsedAsAsked(body: map<string, Json>)
    ensures ParseDeltas(body).Some? <==> Proper(body)
    ensures Proper(body) ==> forall k :: AmountOf(ParseDeltas(body).value, k) as real == Asked(body, k)
    ensures Proper(body) ==> forall k :: k in ParseDeltas(body).value ==> OneOfFive(k)
  {
    if Proper(body) {
      forall k | k in body ensures ValidDelta(k, body[k]) {
        assert body[k].value == body[k].value.Floor as real;
      }
      var k :| k in body && Asked(body, k) != 0.0;
      assert k in Deltas(body);
    }
    if ParseDeltas(body).Some? {
      forall k | k in body
        ensures OneOfFive(k) && body[k].Number? && body[k].value == body[k].value.Floor as real
        ensures -1_000_000_000.0 <= body[k].value <= 1_000_000_000.0
      {
        assert ValidDelta(k, body[k]);
      }
      var k :| k in Deltas(body);
      assert Asked(body, k) != 0.0;
    }
  }

  /** parseCoinDeltas: the map is visited in any order. */
  method ParseCoinDeltas(body: map<string, Json>) returns (r: Option<Amounts>)
    ensures r == ParseDeltas(body)
    ensures r.Some? <==> Proper(body)
    ensures r.Some? ==> forall k :: AmountOf(r.value, k) as real == Asked(body, k)
  {
    ParsedAsAsked(body);
    hide Proper, Asked;
    var deltas: Amounts := map[];
    var todo := body.Keys;
    while todo != {}
      invariant todo <= body.Keys
      invariant forall k :: k in body && k !in todo ==> ValidDelta(k, body[k])
      invariant deltas == map k | k in Deltas(body) && k !in todo :: Deltas(body)[k]
      decreases |todo|
    {
      var key := Any(todo);
      var raw := body[key];
      todo := todo - {key};
      if !IsDenomination(key) { return None; }
      if !raw.Number? || !IsWhole(raw.value) { return None; }
      if raw.value.Floor > MAX_AMOUNT || raw.value.Floor < -MAX_AMOUNT { return None; }
      if raw.value != 0.0 {
        deltas := deltas[key := raw.value.Floor];
      }
    }
    assert deltas == Deltas(body);
    if |deltas| == 0 { return None; }
    r := Some(deltas);
  }

  // ---------------------------------------------------------------- the store

  /** The guarded atomic update: all increments, or none if a guard fails. */
  function Guarded(purse: Amounts, atLeast: Amounts, inc: Amounts): Option<Amounts> {
    if forall k :: k in atLeast ==> AmountOf(purse, k) >= atLeast[k]
    then Some(map k | k in purse.Keys + inc.Keys :: AmountOf(purse, k) + AmountOf(inc, k))
    else None
  }

  /** The guard of every debit. */
  function Debits(deltas: Amounts): Amounts {
    map k | k in deltas && deltas[k] < 0 :: -deltas[k]
  }

  datatype Request = Adjust(body: map<string, Json>) | Convert(from: string, to: string, amount: int)

  datatype Reply = Purse(coins: Amounts) | BadRequest | UnevenConversion | InsufficientCoins

  function Answer(purse: Amounts, after: Option<Amounts>): (Amounts, Reply) {
    match after case Some(p) => (p, Purse(p)) case None => (purse, InsufficientCoins)
  }

  function Handle(purse: Amounts, r: Request): (Amounts, Reply) {
    match r
    case Adjust(body) =>
      var deltas := ParseDeltas(body);
      if deltas == None then (purse, BadRequest)
      else Answer(purse, Guarded(purse, Debits(deltas.value), deltas.value))
    case Convert(from, to, amount) =>
      match ConvertedAmount(from, to, amount)
      case Err(Invalid) => (purse, BadRequest)
      case Err(Uneven) => (purse, UnevenConversion)
      case Ok(gained) => Answer(purse, Guarded(purse, map[from := amount], map[from := -amount, to := gained]))
  }

  class PlayerPurse {
    var coins: Amounts

    /** Every guarded amount is there, and then all increments are applied; or one is not, and none is. */
    method ApplyCoinUpdate(atLeast: Amounts, inc: Amounts) returns (after: Option<Amounts>)
      modifies this
      ensures after.Some? <==> forall k :: k in atLeast ==> AmountOf(old(coins), k) >= atLeast[k]
      ensures after.Some? ==> coins == after.value && coins.Keys == old(coins).Keys + inc.Keys
      ensures after.Some? ==> forall k :: AmountOf(coins, k) == AmountOf(old(coins), k) + AmountOf(inc, k)
      ensures after == None ==> coins == old(coins)
    {
      if forall k :: k in atLeast ==> AmountOf(coins, k) >= atLeast[k] {
        coins := map k | k in coins.Keys + inc.Keys :: AmountOf(coins, k) + AmountOf(inc, k);
        after := Some(coins);
      } else {
        after := None;
      }
    }

    method AdjustCoins(deltas: Amounts) returns (after: Option<Amounts>)
      modifies this
      ensures after == Guarded(old(coins), Debits(deltas), deltas)
      ensures coins == after.GetOr(old(coins))
    {
      hide Debits;
      ghost var before := coins;
      var filter, inc := FilterAndIncrements(deltas);
      after := ApplyCoinUpdate(filter, inc);
      if after.Some? { SameAmounts(after.value, Guarded(before, filter, inc).value); }
    }

    static method FilterAndIncrements(deltas: Amounts) returns (filter: Amounts, inc: Amounts)
      ensures filter == Debits(deltas) && inc == deltas
    {
      filter, inc := map[], map[];
      var todo := deltas.Keys;
      while todo != {}
        invariant todo <= deltas.Keys && inc.Keys == deltas.Keys - todo
        invariant forall k :: k in inc ==> inc[k] == deltas[k]
        invariant forall k :: k in filter <==> k in inc && deltas[k] < 0
        invariant forall k :: k in filter ==> filter[k] == -deltas[k]
        decreases |todo|
      {
        var k := Any(todo);
        todo := todo - {k};
        inc := inc[k := deltas[k]];
        if deltas[k] < 0 {
          filter := filter[k := -deltas[k]];
        }
      }
    }

    /** Moves coins between two denominations if there are enough; the caller has checked the request. */
    method ConvertCoins(from: string, to: string, amount: int, gained: int) returns (after: Option<Amounts>)
      requires from != to
      modifies this
      ensures after.Some? <==> AmountOf(old(coins), from) >= amount
      ensures after.Some? ==> coins == after.value && coins.Keys == old(coins).Keys + {from, to}
      ensures after.Some? ==> AmountOf(coins, from) == AmountOf(old(coins), from) - amount
      ensures after.Some? ==> AmountOf(coins, to) == AmountOf(old(coins), to) + gained
      ensures after.Some? ==> forall k :: k != from && k != to ==> AmountOf(coins, k) == AmountOf(old(coins), k)
      ensures after == None ==> coins == old(coins)
    {
      var atLeast: Amounts := map[from := amount];
      assert from in atLeast;
      after := ApplyCoinUpdate(atLeast, map[from := -amount, to := gained]);
    }

    /** The Adjust and Convert handlers. */
    method Serve(r: Request) returns (reply: Reply)
      modifies this
      ensures (coins, reply) == Handle(old(coins), r)
    {
      hide Guarded, ParseDeltas;
      match r
      case Adjust(body) =>
        var deltas := ParseCoinDeltas(body);
        if deltas == None { return BadRequest; }
        var after := AdjustCoins(deltas.value);
        reply := if after == None then InsufficientCoins else Purse(after.value);
      case Convert(from, to, amount) =>
        var gained := ConvertedAmount(from, to, amount);
        if gained.Err? { return if gained.error == Uneven then UnevenConversion else BadRequest; }
        ghost var before := coins;
        var after := ConvertCoins(from, to, amount, gained.value);
        IsGuardedMove(before, after, coins, from, to, amount, gained.value);
        reply := if after == None then InsufficientCoins else Purse(after.value);
    }
  }

  lemma SameAmounts(p: Amounts, q: Amounts)
    requires p.Keys == q.Keys && forall k :: AmountOf(p, k) == AmountOf(q, k)
    ensures p == q
  {
    forall k | k in p ensures p[k] == q[k] {
      assert AmountOf(p, k) == AmountOf(q, k);
    }
  }

  lemma IsGuardedMove(before: Amounts, after: Option<Amounts>, coins: Amounts, from: string, to: string, amount: int, gained: int)
    requires from != to && (after.Some? <==> AmountOf(before, from) >= amount)
    requires after.Some? ==> coins == after.value && coins.Keys == before.Keys + {from, to}
    requires after.Some? ==> AmountOf(coins, from) == AmountOf(before, from) - amount
    requires after.Some? ==> AmountOf(coins, to) == AmountOf(before, to) + gained
    requires after.Some? ==> forall k :: k != from && k != to ==> AmountOf(coins, k) == AmountOf(before, k)
    ensures after == Guarded(before, map[from := amount], map[from := -amount, to := gained])
  {
    var atLeast: Amounts, inc: Amounts := map[from := amount], map[from := -amount, to := gained];
    assert from in atLeast;
    if after.Some? { SameAmounts(after.value, Guarded(before, atLeast, inc).value); }
  }

  // ---------------------------------------------------------------- conversion

  /** A conversion succeeds exactly when it is well-formed and comes out even; then it keeps the value,
      and neither the product nor the gain leaves the range up to a million million. */
  lemma ConversionKeepsValue(from: string, to: string, amount: int)
    ensures var r := ConvertedAmount(from, to, amount);
      var valid := OneOfFive(from) && OneOfFive(to) && from != to && 1 <= amount <= 1_000_000_000;
      && (r == Err(Invalid) <==> !valid)
      && (r.Ok? <==> valid && exists g :: g * VALUE[to] == amount * VALUE[from])
      && (r.Ok? ==> r.value * VALUE[to] == amount * VALUE[from] && 1 <= r.value <= 1_000_000_000_000)
      && (valid ==> 1 <= amount * VALUE[from] <= 1_000_000_000_000)
  {
    var r := ConvertedAmount(from, to, amount);
    if IsDenomination(from) && IsDenomination(to) && from != to && 1 <= amount <= MAX_AMOUNT {
      var v, total := VALUE[to], amount * VALUE[from];
      ValueRange(from);
      ValueRange(to);
      Bounded(amount, VALUE[from]);
      DividesEvenly(total, v);
    }
  }

  predicate IsValue(v: int) {
    v == 1 || v == 10 || v == 50 || v == 100 || v == 1000
  }

  lemma ValueRange(key: string)
    requires IsDenomination(key)
    ensures IsValue(VALUE[key])
  {
  }

  lemma Bounded(amount: int, v: int)
    requires 1 <= amount <= MAX_AMOUNT && IsValue(v)
    ensures 1 <= amount * v <= 1_000_000_000_000
  {
    if v == 1 {} else if v == 10 {} else if v == 50 {} else if v == 100 {} else {}
  }

  lemma DividesEvenly(total: int, v: int)
    requires IsValue(v) && total >= 1
    ensures total % v == 0 <==> exists g :: g * v == total
    ensures total % v == 0 ==> total / v * v == total && 1 <= total / v <= total
  {
    if g :| g * v == total { MultiplesDivide(g, v); }
    if v == 1 {} else if v == 10 {} else if v == 50 {} else if v == 100 {} else {}
    if total % v == 0 { assert total / v * v == total; }
  }

  lemma MultiplesDivide(g: int, v: int)
    requires IsValue(v)
    ensures g * v % v == 0 && g * v / v == g
  {
    if v == 1 {
    } else if v == 10 {
      assert g * 10 % 10 == 0 && g * 10 / 10 == g;
    } else if v == 50 {
      assert g * 50 % 50 == 0 && g * 50 / 50 == g;
    } else if v == 100 {
      assert g * 100 % 100 == 0 && g * 100 / 100 == g;
    } else {
      assert g * 1000 % 1000 == 0 && g * 1000 / 1000 == g;
    }
  }

  /** Converting the gain back gives the amount exactly when the gain is small enough to be converted. */
  lemma ConversionRoundTrip(from: string, to: string, amount: int)
    requires ConvertedAmount(from, to, amount).Ok?
    ensures var gained := ConvertedAmount(from, to, amount).value;
      ConvertedAmount(to, from, gained) == Ok(amount) <==> gained <= MAX_AMOUNT
  {
    var gained := ConvertedAmount(from, to, amount).value;
    ConversionKeepsValue(from, to, amount);
    ValueRange(from);
    MultiplesDivide(amount, VALUE[from]);
  }

  // ---------------------------------------------------------------- runs

  predicate Solvent(p: Amounts) {
    IsPurse(p) && forall k :: k in p ==> p[k] >= 0
  }

  /** An adjustment is accepted exactly when its body is proper and leaves every denomination
      non-negative; what the body asks is added to every denomination, or to none. */
  lemma AdjustIsAllOrNothing(purse: Amounts, body: map<string, Json>)
    requires Solvent(purse)
    ensures var (after, reply) := Handle(purse, Adjust(body));
      var covered := forall k :: k in purse ==> purse[k] as real + Asked(body, k) >= 0.0;
      && (reply == BadRequest <==> !Proper(body))
      && (reply == InsufficientCoins <==> Proper(body) && !covered)
      && (reply.Purse? <==> Proper(body) && covered)
      && (reply.Purse? ==> reply.coins == after && Solvent(after))
      && (reply.Purse? ==> forall k :: k in purse ==> after[k] as real == purse[k] as real + Asked(body, k))
      && (!reply.Purse? ==> after == purse)
  {
    ParsedAsAsked(body);
    var deltas := ParseDeltas(body);
    if deltas.Some? {
      hide ParseDeltas, Proper, Asked;
      AdjustmentApplies(purse, body, deltas.value);
      forall k | k in purse
        ensures purse[k] as real + Asked(body, k) >= 0.0 <==> purse[k] + AmountOf(deltas.value, k) >= 0
      {
        assert AmountOf(deltas.value, k) as real == Asked(body, k);
      }
    }
  }

  lemma AdjustmentApplies(purse: Amounts, body: map<string, Json>, d: Amounts)
    requires Solvent(purse) && ParseDeltas(body) == Some(d) && forall k :: k in d ==> OneOfFive(k)
    ensures var (after, reply) := Handle(purse, Adjust(body));
      if forall k :: k in purse ==> purse[k] + AmountOf(d, k) >= 0 then
        && reply == Purse(after) && Solvent(after)
        && forall k :: k in purse ==> after[k] == purse[k] + AmountOf(d, k)
      else reply == InsufficientCoins && after == purse
  {
    hide ParseDeltas;
    forall k | k in d ensures k in purse { assert OneOfFive(k); }
    hide OneOfFive;
    if forall k :: k in purse ==> purse[k] + AmountOf(d, k) >= 0 {
      forall k | k in Debits(d) ensures AmountOf(purse, k) >= Debits(d)[k] {
        assert k in purse && purse[k] + AmountOf(d, k) >= 0;
      }
    } else {
      var k :| k in purse && purse[k] + AmountOf(d, k) < 0;
      assert k in Debits(d);
    }
  }

  /** A conversion is accepted exactly when it comes out even and the coins are there; it then moves
      value from one denomination to another and creates none. */
  lemma ConvertMovesValue(purse: Amounts, from: string, to: string, amount: int)
    requires Solvent(purse)
    ensures var (after, reply) := Handle(purse, Convert(from, to, amount));
      var gained := ConvertedAmount(from, to, amount);
      if gained.Ok? && purse[from] >= amount then
        && reply == Purse(after) && Solvent(after) && Worth(after) == Worth(purse)
        && after == purse[from := purse[from] - amount][to := purse[to] + gained.value]
      else
        && after == purse
        && reply == if gained == Err(Invalid) then BadRequest else if gained.Err? then UnevenConversion else InsufficientCoins
  {
    hide Worth, ConvertedAmount, Guarded, IsDenomination, OneOfFive, IsPurse;
    ConversionKeepsValue(from, to, amount);
    var gained := ConvertedAmount(from, to, amount);
    if gained.Ok? {
      DenominationsHeld(purse, from);
      DenominationsHeld(purse, to);
      if purse[from] >= amount {
        WorthOfMove(purse, from, to, amount, gained.value);
        MoveStaysSolvent(purse, from, to, amount, gained.value);
        GuardedMove(purse, from, to, amount, gained.value);
      } else {
        GuardFails(purse, from, amount, map[from := -amount, to := gained.value]);
      }
    }
  }

  lemma DenominationsHeld(purse: Amounts, key: string)
    requires IsPurse(purse) && OneOfFive(key)
    ensures key in purse && IsDenomination(key)
  {
  }

  lemma MoveStaysSolvent(purse: Amounts, from: string, to: string, amount: int, gained: int)
    requires Solvent(purse) && from in purse && to in purse && purse[from] >= amount && gained >= 0
    ensures Solvent(purse[from := purse[from] - amount][to := purse[to] + gained])
  {
    assert purse[from := purse[from] - amount][to := purse[to] + gained].Keys == purse.Keys;
  }

  lemma GuardFails(purse: Amounts, key: string, amount: int, inc: Amounts)
    requires AmountOf(purse, key) < amount
    ensures Guarded(purse, map[key := amount], inc) == None
  {
    assert key in map[key := amount];
  }

  lemma GuardedMove(purse: Amounts, from: string, to: string, amount: int, gained: int)
    requires IsPurse(purse) && IsDenomination(from) && IsDenomination(to) && from != to && purse[from] >= amount
    ensures Guarded(purse, map[from := amount], map[from := -amount, to := gained])
         == Some(purse[from := purse[from] - amount][to := purse[to] + gained])
  {
    var inc: Amounts := map[from := -amount, to := gained];
    assert purse.Keys + inc.Keys == purse.Keys;
    assert (map k | k in purse.Keys + inc.Keys :: AmountOf(purse, k) + AmountOf(inc, k))
        == purse[from := purse[from] - amount][to := purse[to] + gained];
  }

  lemma WorthOfMove(purse: Amounts, from: string, to: string, amount: int, gained: int)
    requires IsPurse(purse) && IsDenomination(from) && IsDenomination(to) && from != to
    requires gained * VALUE[to] == amount * VALUE[from]
    ensures Worth(purse[from := purse[from] - amount][to := purse[to] + gained]) == Worth(purse)
  {
    hide Worth;
    WorthOfUpdate(purse, from, purse[from] - amount);
    WorthOfUpdate(purse[from := purse[from] - amount], to, purse[to] + gained);
  }

  lemma WorthOfUpdate(purse: Amounts, key: string, n: int)
    requires IsPurse(purse) && IsDenomination(key)
    ensures Worth(purse[key := n]) == Worth(purse) + (n - purse[key]) * VALUE[key]
  {
    ValueRange(key);
  }

  /** What a request adds to the worth of the purse according to its body. */
  function Entry(purse: Amounts, r: Request): real {
    if r.Adjust? && Handle(purse, r).1.Purse? then
      Asked(r.body, "cp") + 10.0 * Asked(r.body, "sp") + 50.0 * Asked(r.body, "ep")
      + 100.0 * Asked(r.body, "gp") + 1000.0 * Asked(r.body, "pp")
    else 0.0
  }

  /** The copper value of the accepted adjustments of a run. */
  function LedgerWorth(purse: Amounts, run: seq<Request>): real {
    if run == [] then 0.0 else LedgerWorth(purse, Init(run)) + Entry(Exec(purse, Init(run)), Last(run))
  }

  function Exec(purse: Amounts, run: seq<Request>): Amounts {
    if run == [] then purse else Handle(Exec(purse, Init(run)), Last(run)).0
  }

  lemma StepIsLedgered(purse: Amounts, r: Request)
    requires Solvent(purse)
    ensures var after := Handle(purse, r).0;
      Solvent(after) && Worth(after) as real == Worth(purse) as real + Entry(purse, r)
  {
    match r
    case Adjust(body) =>
      AdjustIsAllOrNothing(purse, body);
      hide Handle, Asked, Proper;
    case Convert(from, to, amount) =>
      ConvertMovesValue(purse, from, to, amount);
  }

  /** Over any run no denomination goes negative, and the purse is worth what it was plus what the accepted
      adjustments asked for: conversions create no value, refused requests change nothing. */
  lemma {:induction false} WorthIsConserved(purse: Amounts, run: seq<Request>)
    requires Solvent(purse)
    ensures Solvent(Exec(purse, run)) && Worth(Exec(purse, run)) as real == Worth(purse) as real + LedgerWorth(purse, run)
  {
    hide Handle, Worth, Solvent, Entry;
    if run != [] {
      WorthIsConserved(purse, Init(run));
      StepIsLedgered(Exec(purse, Init(run)), Last(run));
    }
  }
}
