/** The Dyson pool of the main backtest: a constant-product pool that takes
    deposits for a lock of whole days, issues a note whose amounts carry a
    usage-dependent premium, and pays every note out once its due day comes. */
module Pool {
  import opened Outcomes
  import opened RealMath
  import opened PoolMath

  /** `w = k * W_FACTOR`, fixed when the pool is created. */
  const W_FACTOR: real := 1.0

  /** A note: what one deposit may redeem, and when. */
  datatype Note = Note(
    id: nat,
    token0Amt: real,
    token1Amt: real,
    due: int,
    dayCreate: int,
    in0: real,
    in1: real,
    priceIn: real)

  /** One redeemed note and the amounts paid for it. */
  datatype Payout = Payout(note: Note, amt0: real, amt1: real)

  /** What `deposit` returns: the note id, its amounts and the premium ratio. */
  datatype Receipt = Receipt(nid: nat, note0: real, note1: real, premRatio: real)

  /** What `snapshot` reports. */
  datatype PoolSnapshot = PoolSnapshot(day: int, price: real, reserveEth: real, reserveUsdc: real, k: real)

  /** The liquidity scale `k = sqrt(x*y)` before and after a deposit, and the
      deposit's constant-product delta `Q_sq` with its root `Q`. */
  datatype Growth = Growth(kBefore: real, kAfter: real, qSq: real, q: real)

  /** `k` before and after the deposit, `Q_sq = 4 (k_after - k_before)^2` and
      `Q = sqrt(Q_sq)`. */
  function KGrowth(lib: Lib, x: real, y: real, in0: real, in1: real): (g: Growth)
    requires Lawful(lib)
    ensures 0.0 <= g.kBefore && 0.0 <= g.kAfter && 0.0 <= g.q
  {
    var kBefore := KOf(lib, x, y);
    var kAfter := KOf(lib, x + in0, y + in1);
    var diff := kAfter - kBefore;
    Growth(kBefore, kAfter, 4.0 * diff * diff, ClampedSqrt(lib, 4.0 * diff * diff))
  }

  /** `k` is the root of the reserves' product before and after the deposit,
      and `Q` is the root of `Q_sq`. */
  lemma {:induction false} KGrowthSquares(lib: Lib, x: real, y: real, in0: real, in1: real)
    requires Lawful(lib)
    ensures var g := KGrowth(lib, x, y, in0, in1);
      && (0.0 <= x * y ==> g.kBefore * g.kBefore == x * y)
      && (0.0 <= (x + in0) * (y + in1) ==> g.kAfter * g.kAfter == (x + in0) * (y + in1))
      && g.q * g.q == g.qSq
  {
    var g := KGrowth(lib, x, y, in0, in1);
    KOfSquares(lib, x, y);
    KOfSquares(lib, x + in0, y + in1);
    var diff := g.kAfter - g.kBefore;
    assert 0.0 <= diff * diff && g.qSq == 4.0 * (diff * diff);
    ClampedSqrtSquares(lib, g.qSq);
  }

  /** `Q` is twice the change of `k`; a deposit of non-negative amounts into
      non-negative reserves never shrinks `k`, so `Q = 2 (k_after - k_before)`. */
  lemma {:induction false} KGrowthIsTwiceChange(lib: Lib, x: real, y: real, in0: real, in1: real)
    requires Lawful(lib)
    ensures var g := KGrowth(lib, x, y, in0, in1);
      && g.q == 2.0 * Abs(g.kAfter - g.kBefore)
      && (0.0 <= x && 0.0 <= y && 0.0 <= in0 && 0.0 <= in1 ==>
            g.kBefore <= g.kAfter && g.q == 2.0 * (g.kAfter - g.kBefore))
  {
    var g := KGrowth(lib, x, y, in0, in1);
    var diff := g.kAfter - g.kBefore;
    SqrtOfSquare(lib, 2.0 * diff, g.qSq);
    assert Abs(2.0 * diff) == 2.0 * Abs(diff);
    ProductGrows(lib, x, y, in0, in1);
  }

  /** Adding non-negative amounts to non-negative reserves does not shrink `k`. */
  lemma {:induction false} ProductGrows(lib: Lib, x: real, y: real, in0: real, in1: real)
    requires Lawful(lib)
    ensures 0.0 <= x && 0.0 <= y && 0.0 <= in0 && 0.0 <= in1 ==>
      KOf(lib, x, y) <= KOf(lib, x + in0, y + in1)
  {
    if 0.0 <= x && 0.0 <= y && 0.0 <= in0 && 0.0 <= in1 {
      assert x * y <= (x + in0) * (y + in1);
      SqrtMonotone(lib, x * y, (x + in0) * (y + in1));
    }
  }

  /** A deposit in the pool's own proportions (`in0 = t x`, `in1 = t y`) is
      issued notes of exactly twice its inputs, before the premium. */
  lemma {:induction false} ProportionalDepositNotes(lib: Lib, x: real, y: real, t: real)
    requires Lawful(lib) && 0.0 < x && 0.0 < y && 0.0 < t
    ensures ForwardNotes(x, y, t * x, t * y, KGrowth(lib, x, y, t * x, t * y).qSq)
         == Some((2.0 * t * x, 2.0 * t * y))
  {
    var in0, in1 := t * x, t * y;
    var g := KGrowth(lib, x, y, in0, in1);
    var s := Sqrt(lib, x * y);
    assert SqrtLaw(lib, x * y);
    assert g.kBefore == s;
    ProportionalProduct(x, y, t);
    SqrtOfScaled(lib, 1.0 + t, x * y, (x + in0) * (y + in1));
    assert g.kAfter == (1.0 + t) * s;
    ScaledGrowthSquare(x, y, t, s, g.kBefore, g.kAfter, g.qSq);
    ProportionalCross(x, y, t);
    var note1 := in1 + CrossRatio(in0 * y, x);
    assert note1 == t * y + t * y == 2.0 * t * y;
    assert ForwardNotes(x, y, in0, in1, g.qSq) == Some((g.qSq / note1, note1));
  }

  /** Growing both reserves by the factor `1 + t` grows their product by `(1 + t)^2`. */
  lemma {:induction false} ProportionalProduct(x: real, y: real, t: real)
    ensures (x + t * x) * (y + t * y) == (1.0 + t) * (1.0 + t) * (x * y)
  {
    assert x + t * x == (1.0 + t) * x && y + t * y == (1.0 + t) * y;
  }

  /** Proportional inputs have equal cross products, and the token0 input
      converted at the pool's ratio is the token1 input. */
  lemma {:induction false} ProportionalCross(x: real, y: real, t: real)
    requires 0.0 < x
    ensures (t * x) * y == (t * y) * x
    ensures CrossRatio((t * x) * y, x) == t * y
  {
    assert (t * x) * y == (t * y) * x;
    assert ((t * y) * x) / x == t * y;
  }

  /** The arithmetic of the proportional deposit: with `s * s == x * y` and `k`
      growing from `s` to `(1 + t) s`, dividing `Q_sq` by the token1 note
      `2 t y` gives `2 t x`. */
  lemma {:induction false} ScaledGrowthSquare(x: real, y: real, t: real, s: real, kBefore: real, kAfter: real, qSq: real)
    requires 0.0 < x && 0.0 < y && 0.0 < t && s * s == x * y
    requires kBefore == s && kAfter == (1.0 + t) * s
    requires qSq == 4.0 * (kAfter - kBefore) * (kAfter - kBefore)
    ensures qSq / (t * y + t * y) == 2.0 * t * x
  {
    assert kAfter - kBefore == t * s;
    assert qSq == 4.0 * t * t * (s * s);
    assert qSq == (2.0 * t * x) * (t * y + t * y);
  }

  /** The usage discount over the usage interval `[a, b]` as the code computes
      it: `(log2(b+1) - log2(a+1)) * ln 2 / (b - a or 1)`.  For `a == b` the
      divisor falls back to 1 and the numerator is 0. */
  function Discount(lib: Lib, a: real, b: real): real
  {
    (Log2(lib, b + 1.0) - Log2(lib, a + 1.0)) * lib.ln2 / (if b - a != 0.0 then b - a else 1.0)
  }

  /** The discount does not depend on the direction of the interval. */
  lemma {:induction false} DiscountSymmetric(lib: Lib, a: real, b: real)
    ensures Discount(lib, a, b) == Discount(lib, b, a)
  {
    if b - a != 0.0 {
      var n := (Log2(lib, b + 1.0) - Log2(lib, a + 1.0)) * lib.ln2;
      assert (Log2(lib, a + 1.0) - Log2(lib, b + 1.0)) * lib.ln2 == -n;
      assert -n / (a - b) == n / (b - a);
    }
  }

  /** `prem_ratio = 0.4 * basis * sqrt(lock_days / 365) * discount` over the
      usage interval `[a, b]`.  Errors: `math.log2` of a non-positive number,
      then `math.sqrt` of a negative lock.  An empty interval, a zero lock or a
      zero basis costs no premium. */
  function PremiumRatio(lib: Lib, basis: real, lockDays: int, a: real, b: real): (r: Result<real, Failure>)
    requires Lawful(lib)
    ensures r.Err? <==> b + 1.0 <= 0.0 || a + 1.0 <= 0.0 || lockDays < 0
    ensures b + 1.0 <= 0.0 || a + 1.0 <= 0.0 ==> r == Err(LogDomain)
    ensures 0.0 < b + 1.0 && 0.0 < a + 1.0 && lockDays < 0 ==> r == Err(SqrtDomain)
    ensures r.Ok? && (a == b || lockDays == 0 || basis == 0.0) ==> r.value == 0.0
  {
    if b + 1.0 <= 0.0 || a + 1.0 <= 0.0 then Err(LogDomain)
    else if lockDays < 0 then Err(SqrtDomain)
    else
      var years := lockDays as real / 365.0;
      ZeroLockIsFree(lib, lockDays);
      Ok(0.4 * basis * Sqrt(lib, years) * Discount(lib, a, b))
  }

  /** A lock of zero days is zero years, whose square root is 0. */
  lemma {:induction false} ZeroLockIsFree(lib: Lib, lockDays: int)
    requires Lawful(lib)
    ensures lockDays == 0 ==> Sqrt(lib, lockDays as real / 365.0) == 0.0
  {
    if lockDays == 0 {
      SqrtOfSquare(lib, 0.0, lockDays as real / 365.0);
    }
  }

  /** Locking four times as long costs exactly twice the premium ratio. */
  lemma {:induction false} PremiumGrowsWithRootOfLock(lib: Lib, basis: real, lockDays: nat, a: real, b: real)
    requires Lawful(lib) && 0.0 < a + 1.0 && 0.0 < b + 1.0
    ensures PremiumRatio(lib, basis, 4 * lockDays, a, b).Ok?
    ensures PremiumRatio(lib, basis, 4 * lockDays, a, b).value
         == 2.0 * PremiumRatio(lib, basis, lockDays, a, b).value
  {
    var years := lockDays as real / 365.0;
    SqrtOfScaled(lib, 2.0, years, (4 * lockDays) as real / 365.0);
    if lockDays == 0 {
      EqualRoots(Sqrt(lib, years), 0.0);
    }
  }

  /** The usage counter of a due day: a `defaultdict(float)` reads 0.0 for a missing day. */
  function QAt(qByDue: map<int, real>, due: int): real
  {
    if due in qByDue then qByDue[due] else 0.0
  }

  /** The premium ratio of a deposit with growth `q` on a due day whose usage was
      `qOld`, against the usage scale `w`; dividing by a zero `w` raises. */
  function DuePremium(lib: Lib, w: real, basis: real, lockDays: int, qOld: real, q: real): (r: Result<real, Failure>)
    requires Lawful(lib)
    ensures w == 0.0 ==> r == Err(DivisionByZero)
    ensures 0.0 < w && 0.0 <= qOld && 0.0 <= q ==> (r.Err? <==> lockDays < 0) && r != Err(LogDomain)
    ensures r.Ok? && q == 0.0 ==> r.value == 0.0
  {
    if w == 0.0 then Err(DivisionByZero)
    else
      assert 0.0 < w && 0.0 <= qOld && 0.0 <= q ==> 0.0 <= qOld / w && 0.0 <= (qOld + q) / w;
      PremiumRatio(lib, basis, lockDays, qOld / w, (qOld + q) / w)
  }

  /** Strictly increasing: the order of the note table is the order of its ids. */
  ghost predicate Increasing(s: seq<nat>)
  {
    forall i, j :: 0 <= i < j < |s| ==> s[i] < s[j]
  }

  /** The due notes among `ids`, in that order. */
  function DueNotes(notes: map<nat, Note>, ids: seq<nat>, today: int): seq<Note>
    requires forall i :: 0 <= i < |ids| ==> ids[i] in notes
    decreases |ids|
  {
    if ids == [] then []
    else
      var rest := DueNotes(notes, ids[..|ids| - 1], today);
      var n := notes[ids[|ids| - 1]];
      if n.due <= today then rest + [n] else rest
  }

  /** A note is among the due notes exactly when one of `ids` names it and it
      is due by `today`. */
  lemma {:induction false} DueNotesMembers(notes: map<nat, Note>, ids: seq<nat>, today: int)
    requires forall i :: 0 <= i < |ids| ==> ids[i] in notes
    ensures forall n :: n in DueNotes(notes, ids, today) <==>
      n.due <= today && exists i :: 0 <= i < |ids| && notes[ids[i]] == n
    decreases |ids|
  {
    if ids != [] {
      var front := ids[..|ids| - 1];
      var last := notes[ids[|ids| - 1]];
      DueNotesMembers(notes, front, today);
      forall n ensures n in DueNotes(notes, ids, today) <==>
        n.due <= today && exists i :: 0 <= i < |ids| && notes[ids[i]] == n
      {
        if n.due <= today && exists i :: 0 <= i < |ids| && notes[ids[i]] == n {
          var i :| 0 <= i < |ids| && notes[ids[i]] == n;
          if i < |front| {
            assert notes[front[i]] == n;
          }
        }
        if n in DueNotes(notes, front, today) {
          var i :| 0 <= i < |front| && notes[front[i]] == n;
          assert notes[ids[i]] == n;
        }
      }
    }
  }

  /** The ids among `ids` whose notes are not yet due, in that order. */
  function KeptIds(notes: map<nat, Note>, ids: seq<nat>, today: int): seq<nat>
    requires forall i :: 0 <= i < |ids| ==> ids[i] in notes
    decreases |ids|
  {
    if ids == [] then []
    else
      var rest := KeptIds(notes, ids[..|ids| - 1], today);
      var id := ids[|ids| - 1];
      if notes[id].due > today then rest + [id] else rest
  }

  /** An id is kept exactly when it is one of `ids` and its note is not yet due. */
  lemma {:induction false} KeptIdsMembers(notes: map<nat, Note>, ids: seq<nat>, today: int)
    requires forall i :: 0 <= i < |ids| ==> ids[i] in notes
    ensures forall id :: id in KeptIds(notes, ids, today) <==> id in ids && notes[id].due > today
    decreases |ids|
  {
    if ids != [] {
      var front := ids[..|ids| - 1];
      KeptIdsMembers(notes, front, today);
      assert ids == front + [ids[|ids| - 1]];
    }
  }

  /** The note table after deleting, in order, the due notes among `ids`. */
  function NotesLeft(notes: map<nat, Note>, ids: seq<nat>, today: int): map<nat, Note>
    requires forall i :: 0 <= i < |ids| ==> ids[i] in notes
    decreases |ids|
  {
    if ids == [] then notes
    else
      var rest := NotesLeft(notes, ids[..|ids| - 1], today);
      var id := ids[|ids| - 1];
      if notes[id].due <= today then rest - {id} else rest
  }

  /** A note is left exactly when it is not yet due or `ids` does not name it,
      and it is left unchanged. */
  lemma {:induction false} NotesLeftMembers(notes: map<nat, Note>, ids: seq<nat>, today: int)
    requires forall i :: 0 <= i < |ids| ==> ids[i] in notes
    ensures forall id :: id in NotesLeft(notes, ids, today) <==>
      id in notes && (notes[id].due > today || id !in ids)
    ensures forall id :: id in NotesLeft(notes, ids, today) ==> NotesLeft(notes, ids, today)[id] == notes[id]
    decreases |ids|
  {
    if ids != [] {
      var front := ids[..|ids| - 1];
      NotesLeftMembers(notes, front, today);
      assert ids == front + [ids[|ids| - 1]];
    }
  }

  /** When `ids` names every note, what is left is exactly the notes not yet due. */
  lemma {:induction false} NotesLeftAreUndue(notes: map<nat, Note>, ids: seq<nat>, today: int)
    requires forall id :: id in notes <==> id in ids
    ensures forall i :: 0 <= i < |ids| ==> ids[i] in notes
    ensures NotesLeft(notes, ids, today) == map id | id in notes && notes[id].due > today :: notes[id]
  {
    assert forall i :: 0 <= i < |ids| ==> ids[i] in notes;
    NotesLeftMembers(notes, ids, today);
  }

  /** Filtering keeps the ids in increasing order. */
  lemma {:induction false} KeptIdsIncreasing(notes: map<nat, Note>, ids: seq<nat>, today: int)
    requires forall i :: 0 <= i < |ids| ==> ids[i] in notes
    requires Increasing(ids)
    ensures Increasing(KeptIds(notes, ids, today))
    decreases |ids|
  {
    if ids != [] {
      var front := ids[..|ids| - 1];
      var id := ids[|ids| - 1];
      KeptIdsIncreasing(notes, front, today);
      KeptIdsMembers(notes, front, today);
      var rest := KeptIds(notes, front, today);
      forall k | k in rest ensures k < id {
        var j :| 0 <= j < |front| && front[j] == k;
        assert ids[j] == k;
      }
      if notes[id].due > today {
        var r := rest + [id];
        assert KeptIds(notes, ids, today) == r;
        forall i, j | 0 <= i < j < |r| ensures r[i] < r[j] {
          if j < |rest| {
            assert r[i] == rest[i] && r[j] == rest[j];
          } else {
            assert r[i] == rest[i] && rest[i] in rest;
          }
        }
      }
    }
  }

  /** An id above every id of an increasing sequence can be appended to it. */
  lemma {:induction false} AppendKeepsIncreasing(s: seq<nat>, id: nat)
    requires Increasing(s) && forall k :: k in s ==> k < id
    ensures Increasing(s + [id])
  {
    var t := s + [id];
    forall i, j | 0 <= i < j < |t| ensures t[i] < t[j] {
      if j < |s| {
        assert t[i] == s[i] && t[j] == s[j];
      } else {
        assert t[i] == s[i] && s[i] in s;
      }
    }
  }

  /** Reserves, last `k` and the payouts so far while `withdraw_due` runs. */
  datatype Settlement = Settlement(x: real, y: real, kLast: real, paid: seq<Payout>)

  /** One due note paid out: its amounts leave the pool, `k_last` is taken
      before the rebalance, and the pool is rebalanced. */
  function PayNote(lib: Lib, price: real, s: Settlement, n: Note): (t: Settlement)
    requires Lawful(lib) && price != 0.0
    ensures |t.paid| == |s.paid| + 1 && t.paid[..|s.paid|] == s.paid
    ensures t.paid[|s.paid|].note == n
    ensures (t.paid[|s.paid|].amt0, t.paid[|s.paid|].amt1) == PayoutAmounts(s.x, s.y, n.token0Amt, n.token1Amt)
  {
    var amt := PayoutAmounts(s.x, s.y, n.token0Amt, n.token1Amt);
    var x1, y1 := s.x - amt.0, s.y - amt.1;
    var rb := Rebalance(x1, y1, price).value;
    Settlement(rb.0, rb.1, KOf(lib, x1, y1), s.paid + [Payout(n, amt.0, amt.1)])
  }

  /** Paying a note loses the pool exactly the value of what it pays, and
      leaves it balanced at `price`. */
  lemma {:induction false} PayNoteConservesValue(lib: Lib, price: real, s: Settlement, n: Note)
    requires Lawful(lib) && price != 0.0
    ensures var t := PayNote(lib, price, s, n);
      && Value(t.x, t.y, price) + Value(t.paid[|s.paid|].amt0, t.paid[|s.paid|].amt1, price)
           == Value(s.x, s.y, price)
      && t.x * price == t.y
  {
    var amt := PayoutAmounts(s.x, s.y, n.token0Amt, n.token1Amt);
    var x1, y1 := s.x - amt.0, s.y - amt.1;
    var t := PayNote(lib, price, s, n);
    ValueSplits(s.x, s.y, amt.0, amt.1, price);
    assert Rebalance(x1, y1, price) == Some((t.x, t.y));
    RebalanceSplitsValue(x1, y1, price, (t.x, t.y));
  }

  /** `withdraw_due`'s loop over the due notes `due`, in order, from the reserves
      `(x, y)`. */
  function SettleAll(lib: Lib, price: real, x: real, y: real, kLast: real, due: seq<Note>): Settlement
    requires Lawful(lib) && price != 0.0
    decreases |due|
  {
    if due == [] then Settlement(x, y, kLast, [])
    else
      var before := SettleAll(lib, price, x, y, kLast, due[..|due| - 1]);
      PayNote(lib, price, before, due[|due| - 1])
  }

  /** Settling pays each due note once, in order, and never more than its
      non-negative face amounts. */
  lemma {:induction false} SettleAllPaysEachNote(lib: Lib, price: real, x: real, y: real, kLast: real, due: seq<Note>)
    requires Lawful(lib) && price != 0.0
    ensures var s := SettleAll(lib, price, x, y, kLast, due);
      && |s.paid| == |due|
      && (forall i :: 0 <= i < |due| ==> s.paid[i].note == due[i])
      && (forall i :: 0 <= i < |due| && 0.0 <= due[i].token0Amt ==> 0.0 <= s.paid[i].amt0 <= due[i].token0Amt)
      && (forall i :: 0 <= i < |due| && 0.0 <= due[i].token1Amt ==> 0.0 <= s.paid[i].amt1 <= due[i].token1Amt)
    decreases |due|
  {
    if due != [] {
      var front := due[..|due| - 1];
      SettleAllPaysEachNote(lib, price, x, y, kLast, front);
      var before := SettleAll(lib, price, x, y, kLast, front);
      var s := PayNote(lib, price, before, due[|due| - 1]);
      forall i | 0 <= i < |front| ensures s.paid[i] == before.paid[i] && due[i] == front[i] {
        assert s.paid[..|before.paid|][i] == s.paid[i];
      }
    }
  }

  /** The value, at `price`, of everything paid out. */
  function PaidValue(paid: seq<Payout>, price: real): real
    decreases |paid|
  {
    if paid == [] then 0.0
    else PaidValue(paid[..|paid| - 1], price) + Value(paid[|paid| - 1].amt0, paid[|paid| - 1].amt1, price)
  }

  /** Settling the due notes conserves value: what stays in the pool plus what
      was paid out is worth what the pool held before. */
  lemma {:induction false} SettleAllConservesValue(lib: Lib, price: real, x: real, y: real, kLast: real, due: seq<Note>)
    requires Lawful(lib) && price != 0.0
    ensures var s := SettleAll(lib, price, x, y, kLast, due);
      Value(s.x, s.y, price) + PaidValue(s.paid, price) == Value(x, y, price)
    decreases |due|
  {
    if due != [] {
      var before := SettleAll(lib, price, x, y, kLast, due[..|due| - 1]);
      SettleAllConservesValue(lib, price, x, y, kLast, due[..|due| - 1]);
      var s := PayNote(lib, price, before, due[|due| - 1]);
      PayNoteConservesValue(lib, price, before, due[|due| - 1]);
      assert s.paid[..|s.paid| - 1] == before.paid;
    }
  }

  /** One more id in `withdraw_due`'s loop: a due note adds one payment. */
  lemma {:induction false} SettleStep(lib: Lib, price: real, x: real, y: real, kLast: real,
                                      notes: map<nat, Note>, ids: seq<nat>, i: nat, today: int)
    requires Lawful(lib) && price != 0.0 && i < |ids|
    requires forall j :: 0 <= j < |ids| ==> ids[j] in notes
    ensures var n := notes[ids[i]];
      var settled := SettleAll(lib, price, x, y, kLast, DueNotes(notes, ids[..i], today));
      SettleAll(lib, price, x, y, kLast, DueNotes(notes, ids[..i + 1], today))
        == if n.due <= today then PayNote(lib, price, settled, n) else settled
  {
    assert ids[..i + 1][..i] == ids[..i];
    var due := DueNotes(notes, ids[..i], today);
    var n := notes[ids[i]];
    if n.due <= today {
      assert (due + [n])[..|due|] == due;
    }
  }

  /** One more id in `withdraw_due`'s loop: a note not yet due is kept, a due
      one is deleted. */
  lemma {:induction false} KeptStep(notes: map<nat, Note>, ids: seq<nat>, i: nat, today: int)
    requires i < |ids|
    requires forall j :: 0 <= j < |ids| ==> ids[j] in notes
    ensures forall id :: id in ids[..i + 1] <==> id in ids[..i] || id == ids[i]
    ensures KeptIds(notes, ids[..i + 1], today)
      == if notes[ids[i]].due > today then KeptIds(notes, ids[..i], today) + [ids[i]]
         else KeptIds(notes, ids[..i], today)
    ensures NotesLeft(notes, ids[..i + 1], today)
      == if notes[ids[i]].due > today then NotesLeft(notes, ids[..i], today)
         else NotesLeft(notes, ids[..i], today) - {ids[i]}
  {
    assert ids[..i + 1] == ids[..i] + [ids[i]];
  }

  /** Redeem one due note at `price` from the reserves and payouts `s`: pay its
      share of each token, take `k` of what is left, and rebalance. */
  method Redeem(lib: Lib, price: real, s: Settlement, n: Note) returns (t: Settlement)
    requires Lawful(lib) && price != 0.0
    ensures t == PayNote(lib, price, s, n)
  {
    var amt := PayoutAmounts(s.x, s.y, n.token0Amt, n.token1Amt);
    var amt0, amt1 := amt.0, amt.1;
    var x, y := s.x - amt0, s.y - amt1;
    var kLast := KOf(lib, x, y);
    var rb := Rebalance(x, y, price);
    x, y := rb.value.0, rb.value.1;
    t := Settlement(x, y, kLast, s.paid + [Payout(n, amt0, amt1)]);
  }

  /** `withdraw_due`'s loop: go through `ids` in order, redeem each due note
      and delete it from the table.  Returns the reserves and payouts, the
      table left, and the ids left in order. */
  method SettleDueNotes(lib: Lib, price: real, start: Settlement, notes: map<nat, Note>, ids: seq<nat>, today: int)
    returns (s: Settlement, table: map<nat, Note>, kept: seq<nat>)
    requires Lawful(lib) && price != 0.0 && start.paid == []
    requires Increasing(ids) && forall id :: id in notes <==> id in ids
    ensures s == SettleAll(lib, price, start.x, start.y, start.kLast, DueNotes(notes, ids, today))
    ensures table == NotesLeft(notes, ids, today)
    ensures kept == KeptIds(notes, ids, today)
  {
    s, table, kept := start, notes, [];
    var i := 0;
    while i < |ids|
      invariant 0 <= i <= |ids|
      invariant kept == KeptIds(notes, ids[..i], today)
      invariant s == SettleAll(lib, price, start.x, start.y, start.kLast, DueNotes(notes, ids[..i], today))
      invariant table == NotesLeft(notes, ids[..i], today)
    {
      var nid := ids[i];
      NotesLeftMembers(notes, ids[..i], today);
      assert nid !in ids[..i] by {
        forall j | 0 <= j < i ensures ids[j] != nid {
          assert ids[j] < ids[i];
        }
      }
      var n := table[nid];
      SettleStep(lib, price, start.x, start.y, start.kLast, notes, ids, i, today);
      KeptStep(notes, ids, i, today);
      if n.due <= today {
        s := Redeem(lib, price, s, n);
        table := table - {nid};
      } else {
        kept := kept + [nid];
      }
      i := i + 1;
    }
    assert ids[..i] == ids;
  }

  /** Both note amounts scaled by `1 + premRatio`. */
  function WithPremium(notes: (real, real), premRatio: real): (real, real)
  {
    (notes.0 * (1.0 + premRatio), notes.1 * (1.0 + premRatio))
  }

  /** Everything a `DysonPool` changes: reserves, the last `k`, usage per due
      day, the note table with its insertion order, and the next note id. */
  datatype PoolState = PoolState(
    x: real,
    y: real,
    kLast: real,
    qByDue: map<int, real>,
    notes: map<nat, Note>,
    noteOrder: seq<nat>,
    nextId: nat)

  /** The pool after an operation, and what the operation returned or raised. */
  datatype Step<T> = Step(pool: PoolState, result: Result<T, Failure>)

  /** What the pool keeps true between calls: usage is never negative, the note
      table lists its ids in increasing insertion order, each note is stored
      under its own id, and every id is below the next one to be issued. */
  ghost predicate Consistent(p: PoolState)
  {
    && (forall d :: d in p.qByDue ==> 0.0 <= p.qByDue[d])
    && Increasing(p.noteOrder)
    && (forall id :: id in p.notes <==> id in p.noteOrder)
    && (forall id :: id in p.notes ==> p.notes[id].id == id && id < p.nextId)
  }

  /** `deposit` as a function of the pool before it.  An exception leaves the
      pool as the code leaves it at that point: untouched before the usage
      table is read, with the read's default entry afterwards, and grown but
      unrebalanced, without a note, when the final rebalance divides by zero.
      Only the due day's usage changes; a successful deposit issues one note
      under the next id, keeps the value of the grown reserves, leaves them
      balanced, and records as last `k` the root of the grown reserves' product. */
  function DepositStep(lib: Lib, w: real, basis: real, p: PoolState,
                       in0: real, in1: real, lockDays: int, today: int, price: real): Step<Receipt>
    requires Lawful(lib)
  {
    if !(0.0 < in0 || 0.0 < in1) then Step(p, Err(NoPositiveInput))
    else
      var g := KGrowth(lib, p.x, p.y, in0, in1);
      var split := ForwardNotes(p.x, p.y, in0, in1, g.qSq);
      if split.None? then Step(p, Err(DivisionByZero))
      else
        ChargeStep(lib, w, basis, p, in0, in1, lockDays, today, price, g, split.value)
  }

  /** What a deposit changes: nothing without a positive input; on an exception
      the note table is left alone; only the due day's usage entry can change;
      on success one new note, under the next id, is added at the end. */
  lemma {:induction false} DepositStepEffects(lib: Lib, w: real, basis: real, p: PoolState,
                                             in0: real, in1: real, lockDays: int, today: int, price: real)
    requires Lawful(lib)
    ensures var s := DepositStep(lib, w, basis, p, in0, in1, lockDays, today, price);
      && (!(0.0 < in0 || 0.0 < in1) ==> s == Step(p, Err(NoPositiveInput)))
      && (s.result.Err? ==>
            s.pool.notes == p.notes && s.pool.noteOrder == p.noteOrder && s.pool.nextId == p.nextId)
      && (forall d :: d != today + lockDays ==>
            (d in s.pool.qByDue <==> d in p.qByDue) && QAt(s.pool.qByDue, d) == QAt(p.qByDue, d))
      && (s.result.Ok? ==>
            var rc := s.result.value;
            && rc.nid == p.nextId
            && s.pool.nextId == p.nextId + 1
            && s.pool.noteOrder == p.noteOrder + [rc.nid]
            && s.pool.notes.Keys == p.notes.Keys + {rc.nid}
            && s.pool.notes[rc.nid] == Note(rc.nid, rc.note0, rc.note1, today + lockDays, today, in0, in1, price)
            && (forall id :: id in p.notes && id != rc.nid ==> s.pool.notes[id] == p.notes[id]))
  {
  }

  /** What a successful deposit issues: the note split of `Q_sq` at the
      reserves before the deposit, both amounts scaled by the same
      `1 + prem_ratio`, where the ratio is the premium of the due day's usage
      before the deposit; that usage entry grows by `Q`, which is never
      negative.  A deposit with no growth (`Q == 0`) is issued the split as it is. */
  lemma {:induction false} DepositIssuesNote(lib: Lib, w: real, basis: real, p: PoolState,
                                            in0: real, in1: real, lockDays: int, today: int, price: real)
    requires Lawful(lib)
    requires DepositStep(lib, w, basis, p, in0, in1, lockDays, today, price).result.Ok?
    ensures var s := DepositStep(lib, w, basis, p, in0, in1, lockDays, today, price);
      var rc := s.result.value;
      var g := KGrowth(lib, p.x, p.y, in0, in1);
      var due := today + lockDays;
      var split := ForwardNotes(p.x, p.y, in0, in1, g.qSq);
      && split.Some?
      && DuePremium(lib, w, basis, lockDays, QAt(p.qByDue, due), g.q) == Ok(rc.premRatio)
      && (rc.note0, rc.note1) == WithPremium(split.value, rc.premRatio)
      && due in s.pool.qByDue && s.pool.qByDue[due] == QAt(p.qByDue, due) + g.q
      && 0.0 <= g.q
      && (g.q == 0.0 ==> (rc.note0, rc.note1) == split.value)
  {
  }

  /** The middle part of `deposit`, once the notes are split: the usage of
      the due day and the premium ratio, then the pool update. */
  function ChargeStep(lib: Lib, w: real, basis: real, p: PoolState, in0: real, in1: real,
                      lockDays: int, today: int, price: real, g: Growth, notes: (real, real)): Step<Receipt>
    requires Lawful(lib)
  {
    var due := today + lockDays;
    // reading a defaultdict entry stores the default
    var qOld := QAt(p.qByDue, due);
    var prem := DuePremium(lib, w, basis, lockDays, qOld, g.q);
    if prem.Err? then Step(p.(qByDue := p.qByDue[due := qOld]), Err(prem.error))
    else
      UpdatePool(p.(qByDue := p.qByDue[due := qOld + g.q]), in0, in1, due, today, price,
                 g.kAfter, WithPremium(notes, prem.value), prem.value)
  }

  /** The last part of `deposit`: the reserves grow by the inputs, `kAfter`
      becomes the last `k`, the reserves are rebalanced and the note `issued`
      is stored under the next id.  A zero price with token1 held leaves the
      reserves grown but unrebalanced, without a note. */
  function UpdatePool(p: PoolState, in0: real, in1: real, due: int, today: int, price: real,
                      kAfter: real, issued: (real, real), premRatio: real): (s: Step<Receipt>)
  {
    var grown := Rebalance(p.x + in0, p.y + in1, price);
    if grown.None? then
      Step(p.(x := p.x + in0, y := p.y + in1, kLast := kAfter), Err(DivisionByZero))
    else
      var nid := p.nextId;
      Step(PoolState(grown.value.0, grown.value.1, kAfter, p.qByDue,
                     p.notes[nid := Note(nid, issued.0, issued.1, due, today, in0, in1, price)],
                     p.noteOrder + [nid], nid + 1),
           Ok(Receipt(nid, issued.0, issued.1, premRatio)))
  }

  /** A successful deposit keeps the value of the grown reserves and leaves
      them balanced at the deposit's price; its last `k` is `k` of the grown
      reserves, taken before the rebalance. */
  lemma {:induction false} DepositBalances(lib: Lib, w: real, basis: real, p: PoolState,
                                          in0: real, in1: real, lockDays: int, today: int, price: real)
    requires Lawful(lib)
    requires DepositStep(lib, w, basis, p, in0, in1, lockDays, today, price).result.Ok?
    ensures var q := DepositStep(lib, w, basis, p, in0, in1, lockDays, today, price).pool;
      && Value(q.x, q.y, price) == Value(p.x + in0, p.y + in1, price)
      && q.x * price == q.y
      && q.kLast == KOf(lib, p.x + in0, p.y + in1)
  {
    var q := DepositStep(lib, w, basis, p, in0, in1, lockDays, today, price).pool;
    var g := KGrowth(lib, p.x, p.y, in0, in1);
    assert Rebalance(p.x + in0, p.y + in1, price) == Some((q.x, q.y)) && q.kLast == g.kAfter;
    RebalanceSplitsValue(p.x + in0, p.y + in1, price, (q.x, q.y));
  }

  /** A deposit, successful or not, keeps the pool consistent. */
  lemma {:induction false} DepositKeepsConsistent(lib: Lib, w: real, basis: real, p: PoolState,
                                                 in0: real, in1: real, lockDays: int, today: int, price: real)
    requires Lawful(lib) && Consistent(p)
    ensures Consistent(DepositStep(lib, w, basis, p, in0, in1, lockDays, today, price).pool)
  {
    var s := DepositStep(lib, w, basis, p, in0, in1, lockDays, today, price);
    DepositStepEffects(lib, w, basis, p, in0, in1, lockDays, today, price);
    var due := today + lockDays;
    var qOld := QAt(p.qByDue, due);
    assert 0.0 <= qOld by {
      if due in p.qByDue { assert 0.0 <= p.qByDue[due]; }
    }
    if s.result.Ok? {
      AppendKeepsIncreasing(p.noteOrder, p.nextId);
    }
  }

  /** With a non-negative usage scale the logarithms never see a non-positive
      number: usage is never negative, so both ends of the usage interval are. */
  lemma {:induction false} DepositNeverLogDomain(lib: Lib, w: real, basis: real, p: PoolState,
                                                in0: real, in1: real, lockDays: int, today: int, price: real)
    requires Lawful(lib) && Consistent(p) && 0.0 <= w
    ensures DepositStep(lib, w, basis, p, in0, in1, lockDays, today, price).result != Err(LogDomain)
  {
    var due := today + lockDays;
    var qOld := QAt(p.qByDue, due);
    assert 0.0 <= qOld by {
      if due in p.qByDue { assert 0.0 <= p.qByDue[due]; }
    }
  }

  /** For a pool with non-negative reserves and a positive usage scale, and a
      deposit of non-negative amounts, one of them positive, the outcome is
      decided by three conditions: only token0 coming into a pool without
      token1 divides by a zero note; otherwise a negative lock fails the
      square root; otherwise a zero price with token1 held fails the rebalance. */
  lemma {:induction false} DepositOutcome(lib: Lib, w: real, basis: real, p: PoolState,
                                         in0: real, in1: real, lockDays: int, today: int, price: real)
    requires Lawful(lib) && Consistent(p) && 0.0 < w
    requires 0.0 <= p.x && 0.0 <= p.y && 0.0 <= in0 && 0.0 <= in1 && (0.0 < in0 || 0.0 < in1)
    ensures var r := DepositStep(lib, w, basis, p, in0, in1, lockDays, today, price).result;
      && (in1 == 0.0 && p.y == 0.0 ==> r == Err(DivisionByZero))
      && (!(in1 == 0.0 && p.y == 0.0) && lockDays < 0 ==> r == Err(SqrtDomain))
      && (!(in1 == 0.0 && p.y == 0.0) && 0 <= lockDays && price == 0.0 && p.y + in1 != 0.0 ==> r == Err(DivisionByZero))
      && (r.Ok? <==> !(in1 == 0.0 && p.y == 0.0) && 0 <= lockDays && !(price == 0.0 && p.y + in1 != 0.0))
  {
    var g := KGrowth(lib, p.x, p.y, in0, in1);
    ForwardNotesDefined(p.x, p.y, in0, in1, g.qSq);
    var due := today + lockDays;
    var qOld := QAt(p.qByDue, due);
    assert 0.0 <= qOld by {
      if due in p.qByDue { assert 0.0 <= p.qByDue[due]; }
    }
  }

  /** The pool of the main backtest. */
  class DysonPool {
    /** `math.sqrt`, `math.log2` and `math.log(2)`. */
    const math: Lib
    /** The usage scale: `k` of the initial reserves times `W_FACTOR`. */
    const w: real
    /** The assumed annualised volatility. */
    const basis: real
    /** Reserve of token0 (ETH). */
    var x: real
    /** Reserve of token1 (USDC). */
    var y: real
    var kLast: real
    /** Usage accumulated per due day. */
    var qByDue: map<int, real>
    /** The note table, and its keys in insertion order. */
    var notes: map<nat, Note>
    var noteOrder: seq<nat>
    /** The next note id (`itertools.count()`). */
    var nextId: nat

    ghost predicate Valid()
      reads this
    {
      Lawful(math) && 0.0 <= w && Consistent(State())
    }

    /** The pool's mutable state as a value. */
    function State(): PoolState
      reads this
    {
      PoolState(x, y, kLast, qByDue, notes, noteOrder, nextId)
    }

    constructor (lib: Lib, initEth: real, initUsdc: real, basis: real)
      requires Lawful(lib) && 0.0 <= initEth * initUsdc
      ensures Valid()
      ensures math == lib && this.basis == basis && x == initEth && y == initUsdc
      ensures 0.0 <= kLast && kLast * kLast == initEth * initUsdc && w == kLast * W_FACTOR
      ensures qByDue == map[] && notes == map[] && noteOrder == [] && nextId == 0
    {
      assert SqrtLaw(lib, initEth * initUsdc);
      math := lib;
      x, y := initEth, initUsdc;
      kLast := Sqrt(lib, initEth * initUsdc);
      w := Sqrt(lib, initEth * initUsdc) * W_FACTOR;
      this.basis := basis;
      qByDue := map[];
      notes := map[];
      noteOrder := [];
      nextId := 0;
    }

    /** Deposit `in0` token0 and `in1` token1 for `lockDays` days from day `today`:
        the pool changes, and the call returns or raises, as `DepositStep` says. */
    method Deposit(in0: real, in1: real, lockDays: int, today: int, price: real)
      returns (r: Result<Receipt, Failure>)
      requires Valid()
      modifies this
      ensures Valid()
      ensures var s := DepositStep(math, w, basis, old(State()), in0, in1, lockDays, today, price);
        State() == s.pool && r == s.result
    {
      DepositKeepsConsistent(math, w, basis, State(), in0, in1, lockDays, today, price);
      if !(0.0 < in0 || 0.0 < in1) {
        return Err(NoPositiveInput);
      }
      var g := KGrowth(math, x, y, in0, in1);
      var split := ForwardNotes(x, y, in0, in1, g.qSq);
      if split.None? {
        return Err(DivisionByZero);
      }
      r := Charge(in0, in1, lockDays, today, price, g, split.value);
    }

    /** The usage and premium part of `Deposit`, as `ChargeStep` says. */
    method Charge(in0: real, in1: real, lockDays: int, today: int, price: real, g: Growth, issued: (real, real))
      returns (r: Result<Receipt, Failure>)
      requires Lawful(math)
      modifies this
      ensures var s := ChargeStep(math, w, basis, old(State()), in0, in1, lockDays, today, price, g, issued);
        State() == s.pool && r == s.result
    {
      var due := today + lockDays;
      // reading a defaultdict entry stores the default
      var qOld := QAt(qByDue, due);
      qByDue := qByDue[due := qOld];
      var prem := DuePremium(math, w, basis, lockDays, qOld, g.q);
      if prem.Err? {
        return Err(prem.error);
      }
      qByDue := qByDue[due := qOld + g.q];
      assert qByDue == old(qByDue)[due := qOld + g.q];
      assert State() == old(State()).(qByDue := old(qByDue)[due := qOld + g.q]);
      r := UpdateReserves(in0, in1, due, today, price, g.kAfter, WithPremium(issued, prem.value), prem.value);
    }

    /** The pool update at the end of `Deposit`, as `UpdatePool` says. */
    method UpdateReserves(in0: real, in1: real, due: int, today: int, price: real,
                          kAfter: real, issued: (real, real), premRatio: real)
      returns (r: Result<Receipt, Failure>)
      modifies this
      ensures var s := UpdatePool(old(State()), in0, in1, due, today, price, kAfter, issued, premRatio);
        State() == s.pool && r == s.result
    {
      x, y := x + in0, y + in1;
      kLast := kAfter;
      var grown := Rebalance(x, y, price);
      if grown.None? {
        return Err(DivisionByZero);
      }
      x, y := grown.value.0, grown.value.1;

      var nid := nextId;
      nextId := nextId + 1;
      notes := notes[nid := Note(nid, issued.0, issued.1, due, today, in0, in1, price)];
      noteOrder := noteOrder + [nid];
      r := Ok(Receipt(nid, issued.0, issued.1, premRatio));
    }

    /** Pay out every note due by `today`, in the order the notes were made,
        and remove them; notes not yet due stay as they are.  The reserves
        and payouts are those of `SettleAll` over the due notes. */
    method WithdrawDue(today: int, price: real) returns (paid: seq<Payout>)
      requires Valid() && price != 0.0
      modifies this
      ensures Valid()
      ensures
        var s := SettleAll(math, price, old(x), old(y), old(kLast), DueNotes(old(notes), old(noteOrder), today));
        x == s.x && y == s.y && kLast == s.kLast && paid == s.paid
      ensures notes == map id | id in old(notes) && old(notes)[id].due > today :: old(notes)[id]
      ensures noteOrder == KeptIds(old(notes), old(noteOrder), today)
      ensures qByDue == old(qByDue) && nextId == old(nextId)
    {
      var s, table, kept := SettleDueNotes(math, price, Settlement(x, y, kLast, []), notes, noteOrder, today);
      KeptIdsIncreasing(notes, noteOrder, today);
      KeptIdsMembers(notes, noteOrder, today);
      NotesLeftAreUndue(notes, noteOrder, today);
      assert forall id :: id in table <==> id in kept;
      x, y, kLast, paid := s.x, s.y, s.kLast, s.paid;
      notes := table;
      noteOrder := kept;
    }

    /** The pool's reserves and its `k = sqrt(x*y)` (0 for a negative product). */
    function Snapshot(day: int, price: real): (s: PoolSnapshot)
      requires Valid()
      reads this
      ensures s.day == day && s.price == price && s.reserveEth == x && s.reserveUsdc == y
      ensures 0.0 <= s.k
      ensures 0.0 <= x * y ==> s.k * s.k == x * y
      ensures x * y <= 0.0 ==> s.k == 0.0
    {
      KOfSquares(math, x, y);
      PoolSnapshot(day, price, x, y, KOf(math, x, y))
    }
  }
}
