/** The simple version of the Dyson pool: forward deposits that mint a note
    redeemable by id, and reverse deposits that swap at once at a strike and
    keep a put and a call leg with which the swap can be reverted. */
module SimplePool {
  import opened Outcomes
  import opened RealMath
  import opened PoolMath

  /** A forward deposit: its inputs, the note amounts it can redeem, and the price when it was made. */
  datatype NoteForward = NoteForward(id: nat, in0: real, in1: real, note0: real, note1: real, priceIn: real)

  /** A reverse deposit: the target amounts `m` of token0 and `n` of token1,
      the reserve changes it made, its strike, the price when it was made, and
      its revert legs as (amount the pool receives, amount the pool pays). */
  datatype NoteReverse = NoteReverse(
    id: nat,
    m: real,
    n: real,
    deltaX: real,
    deltaY: real,
    strike: real,
    priceIn: real,
    revertPut: (real, real),
    revertCall: (real, real))

  /** What `_calculate_reverse_deposit` returns. */
  datatype ReverseTerms = ReverseTerms(strike: real, deltaX: real, deltaY: real,
                                       revertPut: (real, real), revertCall: (real, real))

  /** The reserve changes and revert legs of a reverse deposit of `(m, n)`
      into reserves `(x, y)`.  The strike is the price at which the reserves
      plus the targets would trade.  `None` is the ZeroDivisionError raised
      when `x + m` or `y + n` is 0. */
  function ReverseDepositTerms(x: real, y: real, m: real, n: real): (r: Option<ReverseTerms>)
    ensures r.None? <==> x + m == 0.0 || y + n == 0.0
  {
    if x + m == 0.0 then None
    else
      var strike := (y + n) / (x + m);
      if strike == 0.0 then None
      else Some(ReverseTerms(strike, m - n / strike, n - m * strike, (m * strike, m), (n / strike, n)))
  }

  /** The strike prices the reserves plus the targets; the reverse deposit is
      value-neutral at the strike; the put leg pays out `m` token0 and the
      call leg `n` token1, each against its value at the strike. */
  lemma {:induction false} ReverseDepositAtStrike(x: real, y: real, m: real, n: real)
    requires ReverseDepositTerms(x, y, m, n).Some?
    ensures var r := ReverseDepositTerms(x, y, m, n).value;
      && r.strike * (x + m) == y + n
      && Value(r.deltaX, r.deltaY, r.strike) == 0.0
      && r.revertPut.1 == m && r.revertPut.0 == Value(r.revertPut.1, 0.0, r.strike)
      && r.revertCall.1 == n && Value(r.revertCall.0, 0.0, r.strike) == r.revertCall.1
  {
    var r := ReverseDepositTerms(x, y, m, n).value;
    var s := r.strike;
    assert s * (x + m) == y + n;
    assert (n / s) * s == n;
    assert r.deltaX * s == m * s - (n / s) * s;
  }

  /** Exercising a leg right after the deposit undoes one side of it: after
      the put the pool has paid out nothing of token0 beyond `n / strike` and
      holds `n` more token1; after the call it holds `m` more token0 and has
      paid `m * strike` of token1.  Both end value-neutral at the strike. */
  lemma {:induction false} RevertLegsUndoOneSide(x: real, y: real, m: real, n: real)
    requires ReverseDepositTerms(x, y, m, n).Some?
    ensures var r := ReverseDepositTerms(x, y, m, n).value;
      && r.deltaX - r.revertPut.1 == -(n / r.strike)
      && r.deltaY + r.revertPut.0 == n
      && r.deltaX + r.revertCall.0 == m
      && r.deltaY - r.revertCall.1 == -(m * r.strike)
      && Value(r.deltaX - r.revertPut.1, r.deltaY + r.revertPut.0, r.strike) == 0.0
      && Value(r.deltaX + r.revertCall.0, r.deltaY - r.revertCall.1, r.strike) == 0.0
  {
    var r := ReverseDepositTerms(x, y, m, n).value;
    var s := r.strike;
    assert (n / s) * s == n;
    assert -(n / s) * s == -n;
  }

  /** Everything the simple pool changes: reserves, the last `k`, the two
      note tables and the next id, which both kinds of deposit draw from. */
  datatype PoolState = PoolState(
    x: real,
    y: real,
    kLast: real,
    forward: map<nat, NoteForward>,
    reverse: map<nat, NoteReverse>,
    nextId: nat)

  /** The pool after an operation, and what the operation returned or raised. */
  datatype Step<T> = Step(pool: PoolState, result: Result<T, Failure>)


  /** What the pool keeps true between calls: the last `k` is a square root,
      each note is stored under its own id, every id is below the next one to
      be issued, and no id is both a forward and a reverse note. */
  ghost predicate Consistent(p: PoolState)
  {
    && 0.0 <= p.kLast
    && (forall id :: id in p.forward ==> p.forward[id].id == id && id < p.nextId)
    && (forall id :: id in p.reverse ==> p.reverse[id].id == id && id < p.nextId)
    && (forall id :: id in p.forward ==> id !in p.reverse)
  }

  /** `Q_sq`: four times the square of the change in `k`. */
  function QSquared(kBefore: real, kAfter: real): real
  {
    4.0 * (kAfter - kBefore) * (kAfter - kBefore)
  }

  /** `math.sqrt(x * y)`: `k` of reserves `(x, y)`.  `None` is the
      ValueError `math.sqrt` raises on a negative product. */
  function CheckedK(lib: Lib, x: real, y: real): (r: Option<real>)
    requires Lawful(lib)
    ensures r.None? <==> x * y < 0.0
    ensures r.Some? ==> r.value == KOf(lib, x, y)
  {
    if x * y < 0.0 then None else Some(KOf(lib, x, y))
  }

  /** The constant-product growth of a deposit, as `(kAfter, qSq)`: `k` of
      the grown reserves and `qSq = 4 (kAfter - kBefore)^2`.  `None` is the
      ValueError of either square root. */
  function Growth(lib: Lib, x: real, y: real, in0: real, in1: real): Option<(real, real)>
    requires Lawful(lib)
  {
    var kBefore := CheckedK(lib, x, y);
    var kAfter := CheckedK(lib, x + in0, y + in1);
    if kBefore.None? || kAfter.None? then None
    else Some((kAfter.value, QSquared(kBefore.value, kAfter.value)))
  }

  /** The growth fails exactly when one of the two products is negative;
      otherwise `kAfter` is the root of the grown product and `qSq` is four
      times the square of the change in the root. */
  lemma {:induction false} GrowthOfRoots(lib: Lib, x: real, y: real, in0: real, in1: real)
    requires Lawful(lib)
    ensures var g := Growth(lib, x, y, in0, in1);
      && (g.None? <==> x * y < 0.0 || (x + in0) * (y + in1) < 0.0)
      && (g.Some? ==>
            && g.value.0 == KOf(lib, x + in0, y + in1)
            && g.value.0 * g.value.0 == (x + in0) * (y + in1)
            && g.value.1 == QSquared(KOf(lib, x, y), g.value.0))
  {
    if Growth(lib, x, y, in0, in1).Some? {
      KOfSquares(lib, x + in0, y + in1);
    }
  }

  /** `deposit` as a function of the pool before it.  The id is drawn before
      the square roots are taken, so an exception after that point still uses
      it up. */
  function DepositStep(lib: Lib, p: PoolState, in0: real, in1: real, price: real): Step<nat>
    requires Lawful(lib)
  {
    if !(0.0 < in0 || 0.0 < in1) then Step(p, Err(NoPositiveInput))
    else
      var p1 := p.(nextId := p.nextId + 1);
      var g := Growth(lib, p.x, p.y, in0, in1);
      if g.None? then Step(p1, Err(SqrtDomain))
      else
        var split := ForwardNotes(p.x, p.y, in0, in1, g.value.1);
        if split.None? then Step(p1, Err(DivisionByZero))
        else StoreStep(p1, NoteForward(p.nextId, in0, in1, split.value.0, split.value.1, price), g.value.0)
  }

  /** The end of `deposit`: the note is stored, the reserves grow by its
      inputs, `kAfter` becomes the last `k`, and the reserves are rebalanced
      at the note's price.  A zero price with token1 held raises after the
      note is stored and the reserves grown. */
  function StoreStep(p: PoolState, note: NoteForward, kAfter: real): Step<nat>
  {
    var grown := p.(forward := p.forward[note.id := note], x := p.x + note.in0, y := p.y + note.in1,
                    kLast := kAfter);
    var balanced := Rebalance(grown.x, grown.y, note.priceIn);
    if balanced.None? then Step(grown, Err(DivisionByZero))
    else Step(grown.(x := balanced.value.0, y := balanced.value.1), Ok(note.id))
  }

  /** What a deposit records: nothing without a positive input; otherwise the
      next id is used up, and the reverse notes are left alone.  On success
      the note under that id, previously unused, holds the inputs and the
      price, and no other forward note changes. */
  lemma {:induction false} DepositRecordsNote(lib: Lib, p: PoolState, in0: real, in1: real, price: real)
    requires Lawful(lib) && Consistent(p)
    ensures var s := DepositStep(lib, p, in0, in1, price);
      && (!(0.0 < in0 || 0.0 < in1) ==> s == Step(p, Err(NoPositiveInput)))
      && (0.0 < in0 || 0.0 < in1 ==> s.pool.nextId == p.nextId + 1)
      && s.pool.reverse == p.reverse
      && (s.result.Ok? ==>
            var nid := s.result.value;
            var note := s.pool.forward[nid];
            && nid == p.nextId && nid !in p.forward && nid !in p.reverse
            && s.pool.forward == p.forward[nid := note]
            && note.id == nid && note.in0 == in0 && note.in1 == in1 && note.priceIn == price)
  {
    var s := DepositStep(lib, p, in0, in1, price);
    if s.result.Ok? {
      var g := Growth(lib, p.x, p.y, in0, in1);
      var split := ForwardNotes(p.x, p.y, in0, in1, g.value.1);
      var note := NoteForward(p.nextId, in0, in1, split.value.0, split.value.1, price);
      assert s == StoreStep(p.(nextId := p.nextId + 1), note, g.value.0);
      assert s.result.value == p.nextId && s.pool.forward == p.forward[p.nextId := note];
    }
  }

  /** After a successful deposit the last `k` is `k` of the grown reserves
      (by `GrowthOfRoots`, their product is then not negative). */
  lemma {:induction false} DepositRecordsK(lib: Lib, p: PoolState, in0: real, in1: real, price: real)
    requires Lawful(lib)
    requires DepositStep(lib, p, in0, in1, price).result.Ok?
    ensures DepositStep(lib, p, in0, in1, price).pool.kLast == KOf(lib, p.x + in0, p.y + in1)
  {
    var s := DepositStep(lib, p, in0, in1, price);
    var g := Growth(lib, p.x, p.y, in0, in1);
    var kAfter := CheckedK(lib, p.x + in0, p.y + in1);
    assert g.Some? && kAfter.Some? && g.value.0 == kAfter.value;
    var split := ForwardNotes(p.x, p.y, in0, in1, g.value.1);
    var note := NoteForward(p.nextId, in0, in1, split.value.0, split.value.1, price);
    assert s == StoreStep(p.(nextId := p.nextId + 1), note, g.value.0);
  }

  /** The note of a successful deposit is the split `ForwardNotes` makes of
      `Q_sq = 4 (sqrt((x+in0)(y+in1)) - sqrt(xy))^2` at the reserves before
      the deposit; `ForwardNotesSplit` says what that split is. */
  lemma {:induction false} DepositSplitsGrowth(lib: Lib, p: PoolState, in0: real, in1: real, price: real)
    requires Lawful(lib)
    requires DepositStep(lib, p, in0, in1, price).result.Ok?
    ensures var s := DepositStep(lib, p, in0, in1, price);
      var note := s.pool.forward[s.result.value];
      ForwardNotes(p.x, p.y, in0, in1, QSquared(KOf(lib, p.x, p.y), KOf(lib, p.x + in0, p.y + in1)))
        == Some((note.note0, note.note1))
  {
    var s := DepositStep(lib, p, in0, in1, price);
    var g := Growth(lib, p.x, p.y, in0, in1);
    assert g.Some?;
    GrowthOfRoots(lib, p.x, p.y, in0, in1);
    var split := ForwardNotes(p.x, p.y, in0, in1, g.value.1);
    assert split.Some?;
    assert s.pool.forward[s.result.value] == NoteForward(p.nextId, in0, in1, split.value.0, split.value.1, price);
  }

  /** A successful deposit adds the inputs to the reserves, keeps their value
      at the deposit's price through the rebalance and leaves them balanced. */
  lemma {:induction false} DepositBalances(lib: Lib, p: PoolState, in0: real, in1: real, price: real)
    requires Lawful(lib)
    requires DepositStep(lib, p, in0, in1, price).result.Ok?
    ensures var q := DepositStep(lib, p, in0, in1, price).pool;
      && Value(q.x, q.y, price) == Value(p.x + in0, p.y + in1, price)
      && q.x * price == q.y
  {
    var q := DepositStep(lib, p, in0, in1, price).pool;
    assert Rebalance(p.x + in0, p.y + in1, price) == Some((q.x, q.y));
    RebalanceSplitsValue(p.x + in0, p.y + in1, price, (q.x, q.y));
  }

  /** With non-negative reserves and inputs and a non-zero price, a deposit
      with a positive input fails only when token0 alone comes into a pool
      holding no token1. */
  lemma {:induction false} DepositOutcome(lib: Lib, p: PoolState, in0: real, in1: real, price: real)
    requires Lawful(lib)
    requires 0.0 <= p.x && 0.0 <= p.y && 0.0 <= in0 && 0.0 <= in1 && price != 0.0
    requires 0.0 < in0 || 0.0 < in1
    ensures DepositStep(lib, p, in0, in1, price).result.Ok? <==> !(in1 == 0.0 && p.y == 0.0)
  {
    assert 0.0 <= p.x * p.y;
    assert 0.0 <= (p.x + in0) * (p.y + in1);
    GrowthOfRoots(lib, p.x, p.y, in0, in1);
    ForwardNotesDefined(p.x, p.y, in0, in1, Growth(lib, p.x, p.y, in0, in1).value.1);
  }

  /** A deposit, successful or not, keeps the pool consistent. */
  lemma {:induction false} DepositKeepsConsistent(lib: Lib, p: PoolState, in0: real, in1: real, price: real)
    requires Lawful(lib) && Consistent(p)
    ensures Consistent(DepositStep(lib, p, in0, in1, price).pool)
  {
  }

  /** The common tail of `withdraw_due` and `reverse_deposit`: record `k` of
      the reserves, then rebalance them at `price`.  A negative product is the
      ValueError of `math.sqrt`, raised with nothing changed; a zero price
      with token1 held raises after `k` is recorded. */
  function ResettleStep(lib: Lib, p: PoolState, price: real): Step<()>
    requires Lawful(lib)
  {
    var k := CheckedK(lib, p.x, p.y);
    if k.None? then Step(p, Err(SqrtDomain))
    else
      var p1 := p.(kLast := k.value);
      var balanced := Rebalance(p1.x, p1.y, price);
      if balanced.None? then Step(p1, Err(DivisionByZero))
      else Step(p1.(x := balanced.value.0, y := balanced.value.1), Ok(()))
  }

  /** Resettling leaves the note tables and the next id alone; when it
      succeeds, the last `k` is the square root of the reserves' product
      before the rebalance. */
  lemma {:induction false} ResettleRecordsK(lib: Lib, p: PoolState, price: real)
    requires Lawful(lib)
    ensures var s := ResettleStep(lib, p, price);
      && s.pool.forward == p.forward && s.pool.reverse == p.reverse && s.pool.nextId == p.nextId
      && (s.result.Ok? ==> 0.0 <= p.x * p.y && s.pool.kLast == KOf(lib, p.x, p.y))
  {
  }

  /** When resettling succeeds, the reserves keep their value at `price` and
      end balanced. */
  lemma {:induction false} ResettleBalances(lib: Lib, p: PoolState, price: real)
    requires Lawful(lib)
    requires ResettleStep(lib, p, price).result.Ok?
    ensures var s := ResettleStep(lib, p, price);
      && Value(s.pool.x, s.pool.y, price) == Value(p.x, p.y, price)
      && s.pool.x * price == s.pool.y
  {
    var s := ResettleStep(lib, p, price);
    assert Rebalance(p.x, p.y, price) == Some((s.pool.x, s.pool.y));
    RebalanceSplitsValue(p.x, p.y, price, (s.pool.x, s.pool.y));
  }

  /** `withdraw_due(price, nid)` as a function of the pool before it: redeem
      the forward note `nid` at the clamped ratio, take the amounts out of the
      reserves, resettle them and delete the note.  An unknown id is a
      KeyError; a failure to resettle leaves the reserves reduced and the note
      stored. */
  function WithdrawStep(lib: Lib, p: PoolState, price: real, nid: nat): Step<(NoteForward, real, real)>
    requires Lawful(lib)
  {
    if nid !in p.forward then Step(p, Err(UnknownNote))
    else
      var n := p.forward[nid];
      var amt := PayoutAmounts(p.x, p.y, n.note0, n.note1);
      var s := ResettleStep(lib, p.(x := p.x - amt.0, y := p.y - amt.1), price);
      if s.result.Err? then Step(s.pool, Err(s.result.error))
      else Step(s.pool.(forward := p.forward - {nid}), Ok((n, amt.0, amt.1)))
  }

  /** A withdrawal fails with `UnknownNote`, changing nothing, exactly when
      there is no forward note `nid`; it never touches the reverse notes or
      the next id, and on success deletes only the note `nid`. */
  lemma {:induction false} WithdrawFindsNote(lib: Lib, p: PoolState, price: real, nid: nat)
    requires Lawful(lib)
    ensures var s := WithdrawStep(lib, p, price, nid);
      && (s.result == Err(UnknownNote) <==> nid !in p.forward)
      && (nid !in p.forward ==> s.pool == p)
      && s.pool.reverse == p.reverse && s.pool.nextId == p.nextId
      && (s.result.Ok? ==> s.result.value.0 == p.forward[nid] && s.pool.forward == p.forward - {nid})
  {
    if nid in p.forward {
      var n := p.forward[nid];
      var amt := PayoutAmounts(p.x, p.y, n.note0, n.note1);
      ResettleRecordsK(lib, p.(x := p.x - amt.0, y := p.y - amt.1), price);
    }
  }

  /** A successful withdrawal pays `ratio * note0` and `(1 - ratio) * note1`
      with the ratio clamped to [0, 1], so a note with non-negative amounts
      pays at most those amounts. */
  lemma {:induction false} WithdrawPaysNote(lib: Lib, p: PoolState, price: real, nid: nat)
    requires Lawful(lib)
    requires WithdrawStep(lib, p, price, nid).result.Ok?
    ensures var (n, amt0, amt1) := WithdrawStep(lib, p, price, nid).result.value;
      var ratio := WithdrawRatio(p.x, p.y, n.note0, n.note1);
      && 0.0 <= ratio <= 1.0
      && amt0 == ratio * n.note0 && amt1 == (1.0 - ratio) * n.note1
      && (0.0 <= n.note0 ==> 0.0 <= amt0 <= n.note0)
      && (0.0 <= n.note1 ==> 0.0 <= amt1 <= n.note1)
  {
  }

  /** A successful withdrawal takes out of the reserves exactly the value it
      pays at `price` and leaves them balanced. */
  lemma {:induction false} WithdrawConservesValue(lib: Lib, p: PoolState, price: real, nid: nat)
    requires Lawful(lib)
    requires WithdrawStep(lib, p, price, nid).result.Ok?
    ensures var s := WithdrawStep(lib, p, price, nid);
      var (n, amt0, amt1) := s.result.value;
      && Value(s.pool.x, s.pool.y, price) + Value(amt0, amt1, price) == Value(p.x, p.y, price)
      && s.pool.x * price == s.pool.y
  {
    var s := WithdrawStep(lib, p, price, nid);
    var n := p.forward[nid];
    var amt := PayoutAmounts(p.x, p.y, n.note0, n.note1);
    var moved := p.(x := p.x - amt.0, y := p.y - amt.1);
    var r := ResettleStep(lib, moved, price);
    assert r.result.Ok? && s.pool.x == r.pool.x && s.pool.y == r.pool.y;
    assert s.result.value == (n, amt.0, amt.1);
    ResettleBalances(lib, moved, price);
    ValueSplits(p.x, p.y, amt.0, amt.1, price);
  }

  /** A withdrawal, successful or not, keeps the pool consistent. */
  lemma {:induction false} WithdrawKeepsConsistent(lib: Lib, p: PoolState, price: real, nid: nat)
    requires Lawful(lib) && Consistent(p)
    ensures Consistent(WithdrawStep(lib, p, price, nid).pool)
  {
    if nid in p.forward {
      var n := p.forward[nid];
      var amt := PayoutAmounts(p.x, p.y, n.note0, n.note1);
      ResettleRecordsK(lib, p.(x := p.x - amt.0, y := p.y - amt.1), price);
    }
  }

  /** `reverse_deposit(m, n, price)` as a function of the pool before it:
      move the reserves by the deposit's deltas, resettle them and store the
      note with its revert legs.  The id is drawn before anything can raise;
      the note is stored only at the very end. */
  function ReverseStep(lib: Lib, p: PoolState, m: real, n: real, price: real): Step<nat>
    requires Lawful(lib)
  {
    if !(0.0 <= m && 0.0 <= n) then Step(p, Err(NegativeInput))
    else
      var nid := p.nextId;
      var p1 := p.(nextId := nid + 1);
      var terms := ReverseDepositTerms(p.x, p.y, m, n);
      if terms.None? then Step(p1, Err(DivisionByZero))
      else
        var t := terms.value;
        var s := ResettleStep(lib, p1.(x := p.x + t.deltaX, y := p.y + t.deltaY), price);
        if s.result.Err? then Step(s.pool, Err(s.result.error))
        else
          var note := NoteReverse(nid, m, n, t.deltaX, t.deltaY, t.strike, price, t.revertPut, t.revertCall);
          Step(s.pool.(reverse := p.reverse[nid := note]), Ok(nid))
  }

  /** A reverse deposit fails with `NegativeInput`, changing nothing, exactly
      when a target is negative; otherwise it uses up the next id.  It never
      touches the forward notes.  On success the note under that id,
      previously unused, holds the targets, the price and the terms of
      `ReverseDepositTerms`, and no other reverse note changes. */
  lemma {:induction false} ReverseRecordsNote(lib: Lib, p: PoolState, m: real, n: real, price: real)
    requires Lawful(lib) && Consistent(p)
    ensures var s := ReverseStep(lib, p, m, n, price);
      && (s.result == Err(NegativeInput) <==> m < 0.0 || n < 0.0)
      && (m < 0.0 || n < 0.0 ==> s.pool == p)
      && (0.0 <= m && 0.0 <= n ==> s.pool.nextId == p.nextId + 1)
      && s.pool.forward == p.forward
      && (s.result.Ok? ==>
            var nid := s.result.value;
            var t := ReverseDepositTerms(p.x, p.y, m, n).value;
            && nid == p.nextId && nid !in p.forward && nid !in p.reverse
            && s.pool.reverse
               == p.reverse[nid := NoteReverse(nid, m, n, t.deltaX, t.deltaY, t.strike, price,
                                               t.revertPut, t.revertCall)])
  {
    if 0.0 <= m && 0.0 <= n && ReverseDepositTerms(p.x, p.y, m, n).Some? {
      var t := ReverseDepositTerms(p.x, p.y, m, n).value;
      ResettleRecordsK(lib, p.(nextId := p.nextId + 1, x := p.x + t.deltaX, y := p.y + t.deltaY), price);
    }
  }

  /** A successful reverse deposit moves the reserves by its deltas, which
      keeps their value at the strike, then rebalances them at `price`,
      keeping the value they had after the move, and leaves them balanced. */
  lemma {:induction false} ReverseConservesValue(lib: Lib, p: PoolState, m: real, n: real, price: real)
    requires Lawful(lib)
    requires ReverseStep(lib, p, m, n, price).result.Ok?
    ensures var s := ReverseStep(lib, p, m, n, price);
      var t := ReverseDepositTerms(p.x, p.y, m, n).value;
      && Value(p.x + t.deltaX, p.y + t.deltaY, t.strike) == Value(p.x, p.y, t.strike)
      && Value(s.pool.x, s.pool.y, price) == Value(p.x + t.deltaX, p.y + t.deltaY, price)
      && s.pool.x * price == s.pool.y
  {
    var s := ReverseStep(lib, p, m, n, price);
    var t := ReverseDepositTerms(p.x, p.y, m, n).value;
    var moved := p.(nextId := p.nextId + 1, x := p.x + t.deltaX, y := p.y + t.deltaY);
    var r := ResettleStep(lib, moved, price);
    assert r.result.Ok? && s.pool.x == r.pool.x && s.pool.y == r.pool.y;
    ResettleBalances(lib, moved, price);
    ReverseDepositAtStrike(p.x, p.y, m, n);
    ValueSplits(p.x + t.deltaX, p.y + t.deltaY, t.deltaX, t.deltaY, t.strike);
  }

  /** A reverse deposit, successful or not, keeps the pool consistent. */
  lemma {:induction false} ReverseKeepsConsistent(lib: Lib, p: PoolState, m: real, n: real, price: real)
    requires Lawful(lib) && Consistent(p)
    ensures Consistent(ReverseStep(lib, p, m, n, price).pool)
  {
    if 0.0 <= m && 0.0 <= n && ReverseDepositTerms(p.x, p.y, m, n).Some? {
      var t := ReverseDepositTerms(p.x, p.y, m, n).value;
      ResettleRecordsK(lib, p.(nextId := p.nextId + 1, x := p.x + t.deltaX, y := p.y + t.deltaY), price);
    }
  }

  /** The leg `optionType` names, as (amount received, amount paid). */
  function Leg(note: NoteReverse, optionType: string): (real, real)
  {
    if optionType == "put" then note.revertPut else note.revertCall
  }

  /** `revert_exercise(nid, optionType)` as a function of the pool before it.
      A "put" pays out token0 against token1, a "call" token1 against token0,
      by the stored leg; then `k` is recorded and the note deleted.  A
      negative product of the moved reserves raises with them already moved. */
  function RevertStep(lib: Lib, p: PoolState, nid: nat, optionType: string): Step<(string, real, real)>
    requires Lawful(lib)
  {
    if nid !in p.reverse then Step(p, Err(UnknownNote))
    else if optionType != "put" && optionType != "call" then Step(p, Err(BadOptionType))
    else
      var (swapIn, swapOut) := Leg(p.reverse[nid], optionType);
      if optionType == "put" && p.x < swapOut then Step(p, Err(InsufficientReserves))
      else if optionType == "call" && p.y < swapOut then Step(p, Err(InsufficientReserves))
      else
        var p1 := if optionType == "put" then p.(x := p.x - swapOut, y := p.y + swapIn)
                  else p.(x := p.x + swapIn, y := p.y - swapOut);
        var k := CheckedK(lib, p1.x, p1.y);
        if k.None? then Step(p1, Err(SqrtDomain))
        else Step(p1.(kLast := k.value, reverse := p.reverse - {nid}), Ok((optionType, swapIn, swapOut)))
  }

  /** Reverting fails, changing nothing, with `UnknownNote` exactly when there
      is no reverse note `nid`, with `BadOptionType` exactly when the type is
      neither "put" nor "call", and with `InsufficientReserves` exactly when
      the pool holds less than the leg pays out.  On success the reserves move
      by exactly the stored leg, the pool does not pay out more than it held,
      and only that note is deleted. */
  lemma {:induction false} RevertMovesByLeg(lib: Lib, p: PoolState, nid: nat, optionType: string)
    requires Lawful(lib)
    ensures var s := RevertStep(lib, p, nid, optionType);
      && (s.result == Err(UnknownNote) <==> nid !in p.reverse)
      && (s.result == Err(BadOptionType) <==>
            nid in p.reverse && optionType != "put" && optionType != "call")
      && (s.result == Err(InsufficientReserves) <==>
            && nid in p.reverse
            && ((optionType == "put" && p.x < p.reverse[nid].revertPut.1)
                || (optionType == "call" && p.y < p.reverse[nid].revertCall.1)))
      && (s.result.Err? && s.result.error != SqrtDomain ==> s.pool == p)
      && s.pool.forward == p.forward && s.pool.nextId == p.nextId
      && (s.result.Ok? ==>
            var note := p.reverse[nid];
            && s.pool.reverse == p.reverse - {nid}
            && (optionType == "put" ==>
                  && s.result.value == ("put", note.revertPut.0, note.revertPut.1)
                  && s.pool.x == p.x - note.revertPut.1 && s.pool.y == p.y + note.revertPut.0
                  && 0.0 <= s.pool.x)
            && (optionType == "call" ==>
                  && s.result.value == ("call", note.revertCall.0, note.revertCall.1)
                  && s.pool.x == p.x + note.revertCall.0 && s.pool.y == p.y - note.revertCall.1
                  && 0.0 <= s.pool.y))
  {
  }

  /** After a successful revert the last `k` is the square root of the
      product of the moved reserves. */
  lemma {:induction false} RevertRecordsK(lib: Lib, p: PoolState, nid: nat, optionType: string)
    requires Lawful(lib)
    requires RevertStep(lib, p, nid, optionType).result.Ok?
    ensures var q := RevertStep(lib, p, nid, optionType).pool;
      0.0 <= q.x * q.y && q.kLast == KOf(lib, q.x, q.y)
  {
  }

  /** A revert, successful or not, keeps the pool consistent. */
  lemma {:induction false} RevertKeepsConsistent(lib: Lib, p: PoolState, nid: nat, optionType: string)
    requires Lawful(lib) && Consistent(p)
    ensures Consistent(RevertStep(lib, p, nid, optionType).pool)
  {
  }

  /** What `snapshot` reports. */
  datatype PoolSnapshot = PoolSnapshot(day: real, price: real, reserveEth: real, reserveUsdc: real, k: real)

  /** The pool of the simple backtest. */
  class DysonPool {
    /** `math.sqrt`. */
    const math: Lib
    /** The usage scale: `k` of the initial reserves times `w_factor` (stored, not used by this version). */
    const w: real
    /** The assumed annualised volatility (stored, not used by this version). */
    const basis: real
    /** Reserve of token0 (ETH). */
    var x: real
    /** Reserve of token1 (USDC). */
    var y: real
    var kLast: real
    var notesForward: map<nat, NoteForward>
    var notesReverse: map<nat, NoteReverse>
    /** The next note id, shared by both kinds of deposit. */
    var nextId: nat

    ghost predicate Valid()
      reads this
    {
      Lawful(math) && Consistent(State())
    }

    /** The pool's mutable state as a value. */
    function State(): PoolState
      reads this
    {
      PoolState(x, y, kLast, notesForward, notesReverse, nextId)
    }

    constructor (lib: Lib, initEth: real, initUsdc: real, basis: real, wFactor: real)
      requires Lawful(lib) && 0.0 <= initEth * initUsdc
      ensures Valid()
      ensures math == lib && this.basis == basis && x == initEth && y == initUsdc
      ensures 0.0 <= kLast && kLast * kLast == initEth * initUsdc && w == kLast * wFactor
      ensures notesForward == map[] && notesReverse == map[] && nextId == 0
    {
      KOfSquares(lib, initEth, initUsdc);
      var k := KOf(lib, initEth, initUsdc);
      math := lib;
      x, y := initEth, initUsdc;
      kLast := k;
      w := k * wFactor;
      this.basis := basis;
      notesForward := map[];
      notesReverse := map[];
      nextId := 0;
    }

    /** Deposit `in0` token0 and `in1` token1 at `price`: the pool changes,
        and the call returns the note's id or raises, as `DepositStep` says. */
    method Deposit(in0: real, in1: real, price: real) returns (r: Result<nat, Failure>)
      requires Valid()
      modifies this
      ensures Valid()
      ensures State() == DepositStep(math, old(State()), in0, in1, price).pool
      ensures r == DepositStep(math, old(State()), in0, in1, price).result
    {
      DepositKeepsConsistent(math, State(), in0, in1, price);
      if !(0.0 < in0 || 0.0 < in1) {
        return Err(NoPositiveInput);
      }
      var nid := nextId;
      nextId := nextId + 1;
      var g := Growth(math, x, y, in0, in1);
      if g.None? {
        return Err(SqrtDomain);
      }
      var split := ForwardNotes(x, y, in0, in1, g.value.1);
      if split.None? {
        return Err(DivisionByZero);
      }
      r := Store(NoteForward(nid, in0, in1, split.value.0, split.value.1, price), g.value.0);
    }

    /** The end of `Deposit`, as `StoreStep` says. */
    method Store(note: NoteForward, kAfter: real) returns (r: Result<nat, Failure>)
      modifies this
      ensures State() == StoreStep(old(State()), note, kAfter).pool
      ensures r == StoreStep(old(State()), note, kAfter).result
    {
      notesForward := notesForward[note.id := note];
      x := x + note.in0;
      y := y + note.in1;
      kLast := kAfter;
      var balanced := Rebalance(x, y, note.priceIn);
      if balanced.None? {
        return Err(DivisionByZero);
      }
      x, y := balanced.value.0, balanced.value.1;
      r := Ok(note.id);
    }

    /** Record `k` of the reserves and rebalance them, as `ResettleStep` says. */
    method Resettle(price: real) returns (r: Result<(), Failure>)
      requires Lawful(math)
      modifies this
      ensures State() == ResettleStep(math, old(State()), price).pool
      ensures r == ResettleStep(math, old(State()), price).result
    {
      var k := CheckedK(math, x, y);
      if k.None? {
        return Err(SqrtDomain);
      }
      kLast := k.value;
      var balanced := Rebalance(x, y, price);
      if balanced.None? {
        return Err(DivisionByZero);
      }
      x, y := balanced.value.0, balanced.value.1;
      r := Ok(());
    }

    /** Redeem the forward note `nid` at `price` and delete it, as `WithdrawStep` says. */
    method WithdrawDue(price: real, nid: nat) returns (r: Result<(NoteForward, real, real), Failure>)
      requires Valid()
      modifies this
      ensures Valid()
      ensures State() == WithdrawStep(math, old(State()), price, nid).pool
      ensures r == WithdrawStep(math, old(State()), price, nid).result
    {
      WithdrawKeepsConsistent(math, State(), price, nid);
      if nid !in notesForward {
        return Err(UnknownNote);
      }
      var n := notesForward[nid];
      var amt := PayoutAmounts(x, y, n.note0, n.note1);
      x := x - amt.0;
      y := y - amt.1;
      var done := Resettle(price);
      if done.Err? {
        return Err(done.error);
      }
      notesForward := notesForward - {nid};
      r := Ok((n, amt.0, amt.1));
    }

    /** Reverse-deposit targets `m` token0 and `n` token1 at `price`: the pool
        changes, and the call returns the note's id or raises, as `ReverseStep` says. */
    method ReverseDeposit(m: real, n: real, price: real) returns (r: Result<nat, Failure>)
      requires Valid()
      modifies this
      ensures Valid()
      ensures State() == ReverseStep(math, old(State()), m, n, price).pool
      ensures r == ReverseStep(math, old(State()), m, n, price).result
    {
      ReverseKeepsConsistent(math, State(), m, n, price);
      if !(0.0 <= m && 0.0 <= n) {
        return Err(NegativeInput);
      }
      var nid := nextId;
      nextId := nextId + 1;
      var terms := ReverseDepositTerms(x, y, m, n);
      if terms.None? {
        return Err(DivisionByZero);
      }
      var t := terms.value;
      x := x + t.deltaX;
      y := y + t.deltaY;
      var done := Resettle(price);
      if done.Err? {
        return Err(done.error);
      }
      notesReverse := notesReverse[nid := NoteReverse(nid, m, n, t.deltaX, t.deltaY, t.strike, price,
                                                      t.revertPut, t.revertCall)];
      r := Ok(nid);
    }

    /** Exercise the `optionType` leg of the reverse note `nid`, as `RevertStep` says. */
    method RevertExercise(nid: nat, optionType: string) returns (r: Result<(string, real, real), Failure>)
      requires Valid()
      modifies this
      ensures Valid()
      ensures State() == RevertStep(math, old(State()), nid, optionType).pool
      ensures r == RevertStep(math, old(State()), nid, optionType).result
    {
      RevertKeepsConsistent(math, State(), nid, optionType);
      if nid !in notesReverse {
        return Err(UnknownNote);
      }
      if optionType != "put" && optionType != "call" {
        return Err(BadOptionType);
      }
      var note := notesReverse[nid];
      var swapIn, swapOut;
      if optionType == "put" {
        swapIn, swapOut := note.revertPut.0, note.revertPut.1;
        if x < swapOut {
          return Err(InsufficientReserves);
        }
        y := y + swapIn;
        x := x - swapOut;
      } else {
        swapIn, swapOut := note.revertCall.0, note.revertCall.1;
        if y < swapOut {
          return Err(InsufficientReserves);
        }
        x := x + swapIn;
        y := y - swapOut;
      }
      var k := CheckedK(math, x, y);
      if k.None? {
        return Err(SqrtDomain);
      }
      kLast := k.value;
      notesReverse := notesReverse - {nid};
      r := Ok((optionType, swapIn, swapOut));
    }

    /** The pool's reserves and its last recorded `k`, which is never negative. */
    function Snapshot(day: real, price: real): (s: PoolSnapshot)
      requires Valid()
      reads this
      ensures s.day == day && s.price == price && s.reserveEth == x && s.reserveUsdc == y
      ensures s.k == kLast && 0.0 <= s.k
    {
      PoolSnapshot(day, price, x, y, kLast)
    }
  }
}
