/**
 Scoring a contestant's fills against the reference book: every reported fill
 is compared with the first expected fill of its order that is still open.
 */
module Shadow {
  import opened SortedBook
  import opened LevelBook
  import opened BookTheory
  import opened BookRefinement
  import LevelPool
  import Orderbook

  const SHADOW_MAX_FILLS: nat := 262144

  // An expected fill of an incoming order; its quantity is zeroed once a
  // reported fill has been held against it.
  datatype Expected = Expected(orderId: nat, price: int, qty: int, side: Side)

  datatype Tallies = Tallies(orders: nat, expected: nat, actual: nat, correct: nat, wrongPrice: nat, wrongQty: nat,
                             missing: nat, extra: nat, priorityErrors: nat)

  datatype Scoring = Scoring(entries: seq<Expected>, tallies: Tallies)

  // ----- The scorer -----

  predicate Open(e: Expected) {
    e.qty > 0
  }

  // The first open entry of the order, or the number of entries.
  function FirstOpen(entries: seq<Expected>, id: nat): (k: nat)
    ensures k <= |entries| && (k < |entries| ==> Open(entries[k]) && entries[k].orderId == id)
    ensures forall i | 0 <= i < k :: !(Open(entries[i]) && entries[i].orderId == id)
  {
    if entries == [] || (Open(entries[0]) && entries[0].orderId == id) then 0 else 1 + FirstOpen(entries[1..], id)
  }

  // Records the expected fills of one order, as far as there is room.
  function Record(s: Scoring, fills: seq<Expected>): (r: Scoring)
    decreases |fills|
  {
    if fills == [] then s
    else if |s.entries| >= SHADOW_MAX_FILLS then Record(s, fills[1..])
    else Record(Scoring(s.entries + [fills[0]], s.tallies.(expected := s.tallies.expected + 1)), fills[1..])
  }

  function Report(s: Scoring, id: nat, price: int, qty: int): (r: Scoring) {
    var t := s.tallies.(actual := s.tallies.actual + 1);
    var k := FirstOpen(s.entries, id);
    if k == |s.entries| then Scoring(s.entries, t.(extra := t.extra + 1))
    else
      var e := s.entries[k];
      Scoring(s.entries[k := e.(qty := 0)],
              if e.price == price && e.qty == qty then t.(correct := t.correct + 1)
              else if e.price != price then t.(wrongPrice := t.wrongPrice + 1)
              else t.(wrongQty := t.wrongQty + 1))
  }

  function OpenCount(entries: seq<Expected>): (n: nat) {
    if entries == [] then 0 else (if Open(entries[0]) then 1 else 0) + OpenCount(entries[1..])
  }

  function Finalize(s: Scoring): (r: Scoring) {
    s.(tallies := s.tallies.(missing := s.tallies.missing + OpenCount(s.entries)))
  }

  // The correctness score, in exact arithmetic.
  function Score(t: Tallies): (r: real)
    ensures 0.0 <= r <= 1.0
  {
    if t.expected == 0 then 1.0
    else
      var base := t.correct as real / t.expected as real;
      var penalty := t.priorityErrors as real * 0.1
        + t.extra as real / (t.expected + t.extra) as real * 0.3 + t.missing as real / t.expected as real * 0.3;
      var score := base - penalty;
      if score < 0.0 then 0.0 else if score > 1.0 then 1.0 else score
  }

  // ----- Runs -----

  // Orders with the fills expected of them, and reported fills, in any order.
  datatype Event = Ordered(fills: seq<Expected>) | Reported(id: nat, price: int, qty: int)

  function Step(s: Scoring, ev: Event): (r: Scoring) {
    match ev
    case Ordered(fills) => Record(s.(tallies := s.tallies.(orders := s.tallies.orders + 1)), fills)
    case Reported(id, price, qty) => Report(s, id, price, qty)
  }

  const START := Scoring([], Tallies(0, 0, 0, 0, 0, 0, 0, 0, 0))

  function Run(evs: seq<Event>): (s: Scoring) {
    if evs == [] then START else Step(Run(evs[..|evs| - 1]), evs[|evs| - 1])
  }

  // Expected fills are of at least one unit.
  ghost predicate Real(evs: seq<Event>) {
    forall i | 0 <= i < |evs| && evs[i].Ordered? :: AllOpen(evs[i].fills)
  }

  ghost predicate AllOpen(fills: seq<Expected>) {
    forall j | 0 <= j < |fills| :: Open(fills[j])
  }

  // ----- Every fill is counted once -----

  lemma {:induction false} OpenConcat(a: seq<Expected>, c: seq<Expected>)
    ensures OpenCount(a + c) == OpenCount(a) + OpenCount(c)
  {
    if a == [] {
      assert a + c == c;
    } else {
      assert (a + c)[1..] == a[1..] + c;
      OpenConcat(a[1..], c);
    }
  }

  lemma CloseCounts(entries: seq<Expected>, k: nat)
    requires k < |entries| && Open(entries[k])
    ensures OpenCount(entries[k := entries[k].(qty := 0)]) == OpenCount(entries) - 1
  {
    var a, e, c := entries[..k], entries[k], entries[k + 1..];
    assert entries == a + ([e] + c) && entries[k := e.(qty := 0)] == a + ([e.(qty := 0)] + c);
    OpenConcat(a, [e] + c);
    OpenConcat(a, [e.(qty := 0)] + c);
    OpenConcat([e], c);
    OpenConcat([e.(qty := 0)], c);
  }

  // The books balance: entries are open or were held against one report, and
  // every report is in one class.
  ghost predicate Balanced(s: Scoring) {
    var t := s.tallies;
    && t.expected == |s.entries| == t.correct + t.wrongPrice + t.wrongQty + OpenCount(s.entries)
    && t.actual == t.correct + t.wrongPrice + t.wrongQty + t.extra
    && t.missing == 0 && t.priorityErrors == 0
  }

  lemma {:induction false} RecordBalanced(s: Scoring, fills: seq<Expected>)
    requires Balanced(s) && AllOpen(fills)
    ensures Balanced(Record(s, fills))
    decreases |fills|
  {
    if fills != [] {
      if |s.entries| >= SHADOW_MAX_FILLS {
        RecordBalanced(s, fills[1..]);
      } else {
        OpenConcat(s.entries, [fills[0]]);
        RecordBalanced(Scoring(s.entries + [fills[0]], s.tallies.(expected := s.tallies.expected + 1)), fills[1..]);
      }
    }
  }

  lemma ReportBalanced(s: Scoring, id: nat, price: int, qty: int)
    requires Balanced(s)
    ensures Balanced(Report(s, id, price, qty))
  {
    var k := FirstOpen(s.entries, id);
    if k < |s.entries| {
      CloseCounts(s.entries, k);
    }
  }

  lemma {:induction false} RunBalanced(evs: seq<Event>)
    requires Real(evs)
    ensures Balanced(Run(evs))
    decreases |evs|
  {
    hide Balanced;
    if evs == [] {
      StartBalanced();
    } else {
      var n := |evs| - 1;
      assert evs[n] in evs;
      RunBalanced(evs[..n]);
      StepBalanced(Run(evs[..n]), evs[n]);
    }
  }

  lemma StartBalanced()
    ensures Balanced(START)
  {
  }

  lemma StepBalanced(s: Scoring, ev: Event)
    requires Balanced(s) && (ev.Ordered? ==> AllOpen(ev.fills))
    ensures Balanced(Step(s, ev))
  {
    match ev
    case Ordered(fills) => RecordBalanced(s.(tallies := s.tallies.(orders := s.tallies.orders + 1)), fills);
    case Reported(id, price, qty) => ReportBalanced(s, id, price, qty);
  }

  // After any interleaving and one finalize, every recorded expected fill is
  // correct, wrong or missing, and every report is correct, wrong or extra.
  lemma Accounts(evs: seq<Event>)
    requires Real(evs)
    ensures var t := Finalize(Run(evs)).tallies;
      && t.expected == t.correct + t.wrongPrice + t.wrongQty + t.missing
      && t.actual == t.correct + t.wrongPrice + t.wrongQty + t.extra
  {
    RunBalanced(evs);
  }

  // ----- A perfect score -----

  datatype Pair = Pair(price: int, qty: int)

  // The open fills of one order, first to last.
  function Opens(entries: seq<Expected>, id: nat): (r: seq<Pair>) {
    if entries == [] then []
    else (if Open(entries[0]) && entries[0].orderId == id then [Pair(entries[0].price, entries[0].qty)] else [])
         + Opens(entries[1..], id)
  }

  lemma {:induction false} OpensConcat(a: seq<Expected>, c: seq<Expected>, id: nat)
    ensures Opens(a + c, id) == Opens(a, id) + Opens(c, id)
  {
    if a == [] {
      assert a + c == c;
    } else {
      assert (a + c)[1..] == a[1..] + c;
      OpensConcat(a[1..], c, id);
    }
  }

  // What was expected of an order so far, and what was reported for it.
  function Expects(evs: seq<Event>, id: nat): (r: seq<Pair>) {
    if evs == [] then []
    else
      var last := evs[|evs| - 1];
      Expects(evs[..|evs| - 1], id) + if last.Ordered? then Opens(last.fills, id) else []
  }

  function Reports(evs: seq<Event>, id: nat): (r: seq<Pair>) {
    if evs == [] then []
    else
      var last := evs[|evs| - 1];
      Reports(evs[..|evs| - 1], id) + if last.Reported? && last.id == id then [Pair(last.price, last.qty)] else []
  }

  ghost predicate Due(evs: seq<Event>) {
    forall id: nat :: Reports(evs, id) <= Expects(evs, id)
  }

  // At every moment each order's reports are the first of its expected fills.
  ghost predicate InOrder(evs: seq<Event>) {
    evs == [] || (InOrder(evs[..|evs| - 1]) && Due(evs))
  }

  ghost predicate Complete(evs: seq<Event>) {
    forall id: nat :: Reports(evs, id) == Expects(evs, id)
  }

  function FillCount(evs: seq<Event>): (n: nat) {
    if evs == [] then 0
    else FillCount(evs[..|evs| - 1]) + if evs[|evs| - 1].Ordered? then |evs[|evs| - 1].fills| else 0
  }

  // No report so far was wrong or uncalled for.
  predicate NoErrors(t: Tallies) {
    t.wrongPrice == 0 && t.wrongQty == 0 && t.extra == 0
  }

  // What is still open is what was expected and not yet reported.
  ghost predicate InStep(evs: seq<Event>, s: Scoring) {
    forall id: nat :: Expects(evs, id) == Reports(evs, id) + Opens(s.entries, id)
  }

  // Below the cap, recording appends.
  lemma {:induction false} RecordAppends(s: Scoring, fills: seq<Expected>)
    requires |s.entries| + |fills| <= SHADOW_MAX_FILLS
    ensures Record(s, fills) ==
      Scoring(s.entries + fills, s.tallies.(expected := s.tallies.expected + |fills|))
    decreases |fills|
  {
    if fills == [] {
      assert s.entries + fills == s.entries;
    } else {
      RecordAppends(Scoring(s.entries + [fills[0]], s.tallies.(expected := s.tallies.expected + 1)), fills[1..]);
      assert s.entries + [fills[0]] + fills[1..] == s.entries + fills;
    }
  }

  // A report meets the order's first open fill, and closes it.
  lemma {:induction false} FirstOpenHeads(entries: seq<Expected>, id: nat)
    ensures var k, o := FirstOpen(entries, id), Opens(entries, id);
      && (k == |entries| <==> o == [])
      && (k < |entries| ==>
            && o[0] == Pair(entries[k].price, entries[k].qty)
            && var closed := entries[k := entries[k].(qty := 0)];
              Opens(closed, id) == o[1..] && forall x: nat | x != id :: Opens(closed, x) == Opens(entries, x))
  {
    if entries != [] && !(Open(entries[0]) && entries[0].orderId == id) {
      FirstOpenHeads(entries[1..], id);
      var k := FirstOpen(entries, id);
      if k < |entries| {
        var closed := entries[k := entries[k].(qty := 0)];
        assert closed[1..] == entries[1..][k - 1 := entries[k].(qty := 0)];
      }
    } else if entries != [] {
      var closed := entries[0 := entries[0].(qty := 0)];
      assert closed[1..] == entries[1..];
    }
  }

  lemma PrefixSplit<T>(a: seq<T>, o: seq<T>, x: T)
    ensures a + [x] <= a + o <==> o != [] && o[0] == x
  {
    if a + [x] <= a + o {
      assert (a + o)[|a|] == x;
    }
    if o != [] && o[0] == x {
      assert o == [x] + o[1..];
      assert a + o == (a + [x]) + o[1..];
    }
  }

  lemma ReportInStep(before: seq<Event>, s: Scoring, ev: Event)
    requires ev.Reported? && NoErrors(s.tallies) && InStep(before, s)
    ensures var evs, s' := before + [ev], Step(s, ev);
      && (NoErrors(s'.tallies) <==> Due(evs))
      && (NoErrors(s'.tallies) ==> InStep(evs, s'))
  {
    hide Opens; hide FirstOpen;
    var evs, s' := before + [ev], Step(s, ev);
    assert evs[..|evs| - 1] == before;
    var o := Opens(s.entries, ev.id);
    FirstOpenHeads(s.entries, ev.id);
    PrefixSplit(Reports(before, ev.id), o, Pair(ev.price, ev.qty));
    assert Expects(evs, ev.id) == Reports(before, ev.id) + o;
    assert Reports(evs, ev.id) == Reports(before, ev.id) + [Pair(ev.price, ev.qty)];
    assert NoErrors(s'.tallies) <==> o != [] && o[0] == Pair(ev.price, ev.qty);
    forall id: nat | id != ev.id
      ensures Reports(evs, id) <= Expects(evs, id)
    {
      assert Reports(evs, id) == Reports(before, id) && Expects(evs, id) == Expects(before, id);
    }
    if NoErrors(s'.tallies) {
      forall id: nat
        ensures Expects(evs, id) == Reports(evs, id) + Opens(s'.entries, id)
      {
        if id == ev.id {
          assert o == [o[0]] + o[1..];
        }
      }
    }
  }

  lemma OrderInStep(before: seq<Event>, s: Scoring, ev: Event)
    requires ev.Ordered? && NoErrors(s.tallies) && InStep(before, s) && |s.entries| + |ev.fills| <= SHADOW_MAX_FILLS
    ensures var evs, s' := before + [ev], Step(s, ev);
      && NoErrors(s'.tallies) && InStep(evs, s') && Due(evs)
  {
    hide Opens; hide Record;
    var evs := before + [ev];
    assert evs[..|evs| - 1] == before;
    RecordAppends(s.(tallies := s.tallies.(orders := s.tallies.orders + 1)), ev.fills);
    forall id: nat
      ensures Expects(evs, id) == Reports(evs, id) + Opens(s.entries + ev.fills, id)
    {
      OpensConcat(s.entries, ev.fills, id);
    }
  }

  lemma {:induction false} ErrorsStay(s: Scoring, ev: Event)
    requires !NoErrors(s.tallies)
    ensures !NoErrors(Step(s, ev).tallies)
  {
    if ev.Ordered? {
      RecordKeeps(s.(tallies := s.tallies.(orders := s.tallies.orders + 1)), ev.fills);
    }
  }

  lemma {:induction false} RecordKeeps(s: Scoring, fills: seq<Expected>)
    ensures NoErrors(Record(s, fills).tallies) == NoErrors(s.tallies)
    ensures |Record(s, fills).entries| <= |s.entries| + |fills|
    decreases |fills|
  {
    if fills != [] {
      RecordKeeps(if |s.entries| >= SHADOW_MAX_FILLS then s
                  else Scoring(s.entries + [fills[0]], s.tallies.(expected := s.tallies.expected + 1)), fills[1..]);
    }
  }

  lemma {:induction false} EntriesBound(evs: seq<Event>)
    ensures |Run(evs).entries| <= FillCount(evs)
    decreases |evs|
  {
    if evs != [] {
      var n := |evs| - 1;
      EntriesBound(evs[..n]);
      if evs[n].Ordered? {
        var s := Run(evs[..n]);
        RecordKeeps(s.(tallies := s.tallies.(orders := s.tallies.orders + 1)), evs[n].fills);
      }
    }
  }

  // A run is free of errors exactly if its reports came in order.
  lemma {:induction false} NoErrorsInOrder(evs: seq<Event>)
    requires FillCount(evs) <= SHADOW_MAX_FILLS
    ensures NoErrors(Run(evs).tallies) <==> InOrder(evs)
    ensures InOrder(evs) ==> InStep(evs, Run(evs))
    decreases |evs|
  {
    hide Expects; hide Reports; hide Opens; hide Step; hide NoErrors; hide InStep; hide Due;
    if evs == [] {
      StartInStep();
    } else {
      var n := |evs| - 1;
      var before := evs[..n];
      assert evs == before + [evs[n]];
      NoErrorsInOrder(before);
      EntriesBound(before);
      if !NoErrors(Run(before).tallies) {
        ErrorsStay(Run(before), evs[n]);
      } else if evs[n].Reported? {
        ReportInStep(before, Run(before), evs[n]);
      } else {
        OrderInStep(before, Run(before), evs[n]);
      }
    }
  }

  lemma StartInStep()
    ensures NoErrors(START.tallies) && InStep([], START)
  {
  }

  // ----- When the score is exactly one -----

  lemma RatioFacts(n: nat, d: nat)
    requires d > 0
    ensures n as real / d as real >= 0.0
    ensures n as real / d as real == 0.0 <==> n == 0
    ensures n <= d ==> n as real / d as real <= 1.0
    ensures n as real / d as real == 1.0 <==> n == d
  {
    var q := n as real / d as real;
    assert q * d as real == n as real;
  }

  lemma ScoreOne(t: Tallies)
    requires t.correct <= t.expected && t.priorityErrors == 0
    ensures Score(t) == 1.0 <==> t.expected == 0 || (t.correct == t.expected && t.extra == 0 && t.missing == 0)
  {
    if t.expected > 0 {
      RatioFacts(t.correct, t.expected);
      RatioFacts(t.extra, t.expected + t.extra);
      RatioFacts(t.missing, t.expected);
    }
  }

  ghost predicate NoneOpen(entries: seq<Expected>) {
    forall id: nat :: Opens(entries, id) == []
  }

  lemma {:induction false} NoOpens(entries: seq<Expected>)
    ensures OpenCount(entries) == 0 <==> NoneOpen(entries)
  {
    if entries != [] {
      NoOpens(entries[1..]);
      if OpenCount(entries) != 0 {
        if Open(entries[0]) {
          assert Opens(entries, entries[0].orderId) != [];
        } else {
          var id: nat :| Opens(entries[1..], id) != [];
          assert Opens(entries, id) != [];
        }
      } else {
        forall id: nat
          ensures Opens(entries, id) == []
        {
          assert Opens(entries[1..], id) == [];
        }
      }
    }
  }

  lemma {:induction false} ExpectedCount(evs: seq<Event>)
    requires FillCount(evs) <= SHADOW_MAX_FILLS
    ensures Run(evs).tallies.expected == FillCount(evs)
    decreases |evs|
  {
    hide Report;
    if evs != [] {
      var n := |evs| - 1;
      ExpectedCount(evs[..n]);
      EntriesBound(evs[..n]);
      var s := Run(evs[..n]);
      if evs[n].Ordered? {
        RecordAppends(s.(tallies := s.tallies.(orders := s.tallies.orders + 1)), evs[n].fills);
      } else {
        ReportExpected(s, evs[n].id, evs[n].price, evs[n].qty);
      }
    }
  }

  lemma ReportExpected(s: Scoring, id: nat, price: int, qty: int)
    ensures Report(s, id, price, qty).tallies.expected == s.tallies.expected
  {
  }

  // Below the fill cap the score is exactly one if and only if nothing was
  // expected, or every order's reports are its expected fills, in order and
  // none before it was due, however the orders interleave.
  lemma PerfectScore(evs: seq<Event>)
    requires Real(evs) && FillCount(evs) <= SHADOW_MAX_FILLS
    ensures Score(Finalize(Run(evs)).tallies) == 1.0 <==> FillCount(evs) == 0 || (InOrder(evs) && Complete(evs))
  {
    hide Run; hide Score; hide InOrder; hide NoneOpen; hide OpenCount; hide Complete; hide InStep; hide FillCount;
    var s := Run(evs);
    var t := Finalize(s).tallies;
    RunBalanced(evs);
    ExpectedCount(evs);
    ScoreOne(t);
    NoErrorsInOrder(evs);
    NoOpens(s.entries);
    if InOrder(evs) {
      CompleteMeansNone(evs, s);
    }
  }

  lemma CompleteMeansNone(evs: seq<Event>, s: Scoring)
    requires InStep(evs, s)
    ensures Complete(evs) <==> NoneOpen(s.entries)
  {
    hide Opens; hide Expects; hide Reports;
    if Complete(evs) {
      forall id: nat
        ensures Opens(s.entries, id) == []
      {
        assert |Expects(evs, id)| == |Reports(evs, id)| + |Opens(s.entries, id)|;
      }
    } else {
      var id: nat :| Reports(evs, id) != Expects(evs, id);
      assert Opens(s.entries, id) != [];
    }
  }

  // ----- The scorer over its arrays -----

  // The limit an order is matched at.
  function MatchPrice(orderType: OrderType, side: Side, price: int): (p: int) {
    if orderType != Market then price else if side == Buy then LevelPool.INT64_MAX else 0
  }

  function ExpectedOf(id: nat, side: Side, fills: seq<Fill<nat>>): (r: seq<Expected>) {
    seq(|fills|, i requires 0 <= i < |fills| => Expected(id, fills[i].price, fills[i].qty, side))
  }

  // The fills of a match are of at least one unit.
  lemma ExpectedReal(b: Book, id: nat, side: Side, limit: int, qty: int)
    requires Inv(b)
    ensures AllOpen(ExpectedOf(id, side, Match(b, side, Some(limit), qty, FILL_BUFFER).fills))
  {
    hide Inv; hide Match;
    MatchFillsOk(b, side, Some(limit), qty, FILL_BUFFER);
  }

  lemma RecordStep(s: Scoring, fills: seq<Expected>, i: nat)
    requires i < |fills|
    ensures Record(s, fills[i..]) ==
      Record(if |s.entries| >= SHADOW_MAX_FILLS then s
             else Scoring(s.entries + [fills[i]], s.tallies.(expected := s.tallies.expected + 1)), fills[i + 1..])
  {
    assert fills[i..][0] == fills[i] && fills[i..][1..] == fills[i + 1..];
  }

  class ShadowOrderbook {
    const book: Orderbook.OrderBook
    const expected: array<Expected>
    var count: nat
    var result: Tallies

    ghost predicate Layout() {
      this !in book.Repr() && expected !in book.Repr() && expected.Length == SHADOW_MAX_FILLS
    }

    ghost predicate Valid()
      reads this, book.Repr()
    {
      Layout() && count <= SHADOW_MAX_FILLS && book.Valid()
    }

    ghost function Value(): (s: Scoring)
      requires Valid()
      reads this, expected, book.Repr()
    {
      Scoring(expected[..count], result)
    }

    constructor ()
      ensures Valid() && Value() == START && fresh(book.Repr()) && fresh(expected)
      ensures book.Room(Buy) && book.Room(Sell)
    {
      hide Orderbook.OrderBook.Valid; hide Orderbook.OrderBook.Room;
      var b := new Orderbook.OrderBook();
      book := b;
      expected := new Expected[SHADOW_MAX_FILLS](_ => Expected(0, 0, 0, Buy));
      count := 0;
      result := Tallies(0, 0, 0, 0, 0, 0, 0, 0, 0);
    }

    // Appends the fills to the expected ones while there is room, and sums them.
    method RecordAll(id: nat, side: Side, buffer: array<Orderbook.MatchResult>, n: nat, ghost fills: seq<Fill<nat>>)
      returns (filled: int)
      requires Valid() && n == |fills| <= buffer.Length && buffer[..n] == Orderbook.Results(0, fills)
      modifies this`count, this`result, expected
      ensures Valid() && filled == FillTotal(fills)
      ensures Value() == Record(old(Value()), ExpectedOf(id, side, fills))
    {
      hide Orderbook.OrderBook.Valid; hide Record; hide FillTotal;
      ghost var all := ExpectedOf(id, side, fills);
      filled := 0;
      assert all[0..] == all && fills[0..] == fills;
      for i := 0 to n
        invariant Valid()
        invariant Record(Value(), all[i..]) == Record(old(Value()), all)
        invariant filled + FillTotal(fills[i..]) == FillTotal(fills)
      {
        var f := buffer[i];
        assert f == buffer[..n][i] == Orderbook.Results(0, fills)[i];
        ghost var entries := expected[..count];
        RecordStep(Value(), all, i);
        FillTotalStep(fills, i);
        if count < SHADOW_MAX_FILLS {
          expected[count] := Expected(id, f.price, f.qty, side);
          count := count + 1;
          result := result.(expected := result.expected + 1);
          assert expected[..count] == entries + [all[i]];
        }
        filled := filled + f.qty;
      }
      assert all[n..] == [] && fills[n..] == [];
      RecordNone(Value());
    }

    // Matches the order on the reference book, records what it expects of the
    // contestant, and rests the remainder of a limit order.
    method ProcessOrder(id: nat, side: Side, orderType: OrderType, price: int, qty: int)
      requires Valid()
      requires var m := Match(book.book, side, Some(MatchPrice(orderType, side, price)), qty, FILL_BUFFER);
        m.left > 0 && orderType == Limit && m.book.free != [] ==>
          LevelPool.Restable(price) && (Orderbook.NeedsLevel(LadderOf(book.book, side), price) ==> book.Room(side))
      modifies this, expected, book.Repr()
      ensures Valid()
      ensures var m := Match(old(book.book), side, Some(MatchPrice(orderType, side, price)), qty, FILL_BUFFER);
        && Value() == Step(old(Value()), Ordered(ExpectedOf(id, side, m.fills)))
        && book.book == if m.left > 0 && orderType == Limit
                        then AddOrder(m.book, 0, id, side, price, m.left).book else m.book
    {
      hide Orderbook.OrderBook.Represents; hide Inv; hide Match; hide AddOrder; hide Record; hide FillTotal;
      hide LevelPool.Restable; hide LevelPool.PriceLevelPool.Headroom; hide LevelPool.PriceLevelPool.Layout;
      hide Orderbook.Results; hide ExpectedOf;
      result := result.(orders := result.orders + 1);
      var buffer := new Orderbook.MatchResult[FILL_BUFFER];
      ghost var m := Match(book.book, side, Some(MatchPrice(orderType, side, price)), qty, FILL_BUFFER);
      MatchLeft(book.book, side, Some(MatchPrice(orderType, side, price)), qty, FILL_BUFFER);
      OwnLadder(book.book, side, Some(MatchPrice(orderType, side, price)), qty, FILL_BUFFER);
      var n := book.Match(side, MatchPrice(orderType, side, price), qty, 0, buffer, FILL_BUFFER);
      var filled := RecordAll(id, side, buffer, n, m.fills);
      if qty - filled > 0 && orderType == Limit {
        var oidx := book.AddOrder(0, id, side, price, qty - filled);
      }
    }

    // Holds a reported fill against the first open expected fill of its order.
    method ValidateFill(id: nat, price: int, qty: int)
      requires Valid()
      modifies this`result, expected
      ensures Valid() && Value() == Report(old(Value()), id, price, qty)
    {
      hide Orderbook.OrderBook.Valid; hide FirstOpen;
      ghost var entries := expected[..count];
      result := result.(actual := result.actual + 1);
      var i: nat := 0;
      while i < count && !(expected[i].orderId == id && expected[i].qty > 0)
        invariant i <= count
        invariant forall j | 0 <= j < i :: !(Open(entries[j]) && entries[j].orderId == id)
      {
        i := i + 1;
      }
      FirstOpenIs(entries, id, i);
      if i < count {
        var e := expected[i];
        if e.price == price && e.qty == qty {
          result := result.(correct := result.correct + 1);
        } else if e.price != price {
          result := result.(wrongPrice := result.wrongPrice + 1);
        } else {
          result := result.(wrongQty := result.wrongQty + 1);
        }
        expected[i] := e.(qty := 0);
        assert expected[..count] == entries[i := e.(qty := 0)];
      } else {
        result := result.(extra := result.extra + 1);
      }
    }

    // Counts the expected fills never reported.
    method Finish()
      requires Valid()
      modifies this`result
      ensures Valid() && Value() == Finalize(old(Value()))
    {
      hide Orderbook.OrderBook.Valid;
      ghost var entries, was := expected[..count], result;
      assert entries[0..] == entries;
      for i := 0 to count
        invariant Valid() && result == was.(missing := result.missing)
        invariant result.missing + OpenCount(entries[i..]) == was.missing + OpenCount(entries)
      {
        assert entries[i..][0] == entries[i] && entries[i..][1..] == entries[i + 1..];
        if expected[i].qty > 0 {
          result := result.(missing := result.missing + 1);
        }
      }
      assert entries[count..] == [];
    }
  }

  lemma FirstOpenIs(entries: seq<Expected>, id: nat, k: nat)
    requires k <= |entries| && (k < |entries| ==> Open(entries[k]) && entries[k].orderId == id)
    requires forall i | 0 <= i < k :: !(Open(entries[i]) && entries[i].orderId == id)
    ensures FirstOpen(entries, id) == k
  {
    hide FirstOpen;
  }

  lemma RecordNone(s: Scoring)
    ensures Record(s, []) == s && FillTotal<nat>([]) == 0
  {
  }

  lemma OwnLadder(b: Book, aggressor: Side, limit: Option<int>, qty: int, max: nat)
    requires Inv(b)
    ensures LadderOf(Match(b, aggressor, limit, qty, max).book, aggressor) == LadderOf(b, aggressor)
  {
    hide Inv; hide View; hide Match; hide Total; hide FillTotal; hide Clean; hide SameRecords;
    MatchKeeps(b, aggressor, limit, qty, max);
  }
}
