/**
 * The node-name grammar of `PDNContainer::parseNodeName`
 * (src/pdn_container.cpp:91-123): `"0"` is the ground node at (0,0,0);
 * any other name is scanned left to right for maximal runs of decimal
 * digits, the first run (the net number) is dropped and the next three
 * become (layer, x, y). Slots with no run stay 0. Each stored run goes
 * through `std::stoul`, which throws `std::out_of_range` beyond
 * `ULONG_MAX`.
 */
module NodeNames {
  import opened Types
  import opened Strings

  /** Scanner state: the completed runs and the run still being read (`numberStr`). */
  datatype Scan = Scan(runs: seq<string>, pending: string)

  predicate ValidRuns(runs: seq<string>)
  {
    forall i :: 0 <= i < |runs| ==> runs[i] != [] && AllDigits(runs[i])
  }

  predicate ValidScan(st: Scan)
  {
    ValidRuns(st.runs) && AllDigits(st.pending)
  }

  /** One character of the scan: a digit extends the pending run, anything else closes it. */
  function Step(st: Scan, c: char): Scan
  {
    if IsDigit(c) then Scan(st.runs, st.pending + [c])
    else if st.pending != [] then Scan(st.runs + [st.pending], [])
    else Scan(st.runs, [])
  }

  /** The scanner state after reading `s` from state `st`; completed runs are only ever added. */
  function Feed(st: Scan, s: string): (r: Scan)
    requires ValidScan(st)
    ensures ValidScan(r)
    ensures st.runs <= r.runs
    decreases |s|
  {
    if s == [] then st else Feed(Step(st, s[0]), s[1..])
  }

  /** The runs once the input has ended: a pending run counts as well. */
  function Close(st: Scan): seq<string>
  {
    if st.pending != [] then st.runs + [st.pending] else st.runs
  }

  /** All maximal digit runs of `s`, in order. */
  function DigitRuns(s: string): (runs: seq<string>)
    ensures ValidRuns(runs)
  {
    var st := Feed(Scan([], []), s);
    assert st.pending != [] ==> ValidRuns(st.runs + [st.pending]) by {
      if st.pending != [] {
        var r := st.runs + [st.pending];
        assert forall i :: 0 <= i < |st.runs| ==> r[i] == st.runs[i];
      }
    }
    Close(st)
  }

  /** `std::stoul` applied to a run of digits; `None` is `std::out_of_range`. */
  function Stoul(digits: string): (r: Option<U32>)
    requires AllDigits(digits)
    ensures r.Some? <==> DigitsValue(digits) <= ULONG_MAX
    ensures r.Some? ==> r.value == DigitsValue(digits)
  {
    var v := DigitsValue(digits);
    if v <= ULONG_MAX then Some(v) else None
  }

  /** The three coordinate slots filled from runs 2, 3 and 4; absent runs leave 0. */
  function SlotsOf(runs: seq<string>): Option<seq<U32>>
    requires ValidRuns(runs)
  {
    var s0 := if 1 < |runs| then Stoul(runs[1]) else Some(0);
    var s1 := if 2 < |runs| then Stoul(runs[2]) else Some(0);
    var s2 := if 3 < |runs| then Stoul(runs[3]) else Some(0);
    if s0.None? || s1.None? || s2.None? then None
    else Some([s0.value, s1.value, s2.value])
  }

  /** What `parseNodeName` returns for `name`; `None` when `std::stoul` throws. */
  function NodeNameCoords(name: string): Option<NodeCoords>
  {
    if name == "0" then Some(NodeCoords(0, 0, 0))
    else
      match SlotsOf(DigitRuns(name))
      case None => None
      case Some(s) => Some(NodeCoords(s[0], s[1], s[2]))
  }

  // ---------------------------------------------------------------------
  // Scanner facts

  lemma {:induction false} FeedAppend(st: Scan, a: string, b: string)
    requires ValidScan(st)
    ensures Feed(st, a + b) == Feed(Feed(st, a), b)
    decreases |a|
  {
    if a == [] {
      assert a + b == b;
    } else {
      assert (a + b)[0] == a[0] && (a + b)[1..] == a[1..] + b;
      FeedAppend(Step(st, a[0]), a[1..], b);
    }
  }

  lemma {:induction false} FeedDigits(st: Scan, d: string)
    requires ValidScan(st) && AllDigits(d)
    ensures Feed(st, d) == Scan(st.runs, st.pending + d)
    decreases |d|
  {
    if d == [] {
      assert st.pending + d == st.pending;
    } else {
      assert AllDigits(d[1..]) by {
        forall i | 0 <= i < |d[1..]| ensures IsDigit(d[1..][i]) { assert d[1..][i] == d[i + 1]; }
      }
      FeedDigits(Step(st, d[0]), d[1..]);
      assert st.pending + [d[0]] + d[1..] == st.pending + d;
    }
  }

  /** A non-empty run of separators closes the pending run. */
  lemma {:induction false} FeedSeparators(st: Scan, q: string)
    requires ValidScan(st) && q != [] && forall i :: 0 <= i < |q| ==> !IsDigit(q[i])
    ensures Feed(st, q) == Scan(Close(st), [])
    decreases |q|
  {
    var st' := Step(st, q[0]);
    assert st' == Scan(Close(st), []);
    if |q| > 1 {
      FeedSeparators(st', q[1..]);
    }
  }

  /** Separators followed by a run of digits open a new pending run. */
  lemma FeedField(st: Scan, q: string, d: string)
    requires ValidScan(st) && q != [] && forall i :: 0 <= i < |q| ==> !IsDigit(q[i])
    requires AllDigits(d)
    ensures Feed(st, q + d) == Scan(Close(st), d)
  {
    FeedAppend(st, q, d);
    FeedSeparators(st, q);
    FeedDigits(Scan(Close(st), []), d);
  }

  /** A slot that overflows in some prefix of the runs overflows in every extension. */
  lemma SlotsNoneExtends(runs: seq<string>, all: seq<string>)
    requires ValidRuns(runs) && ValidRuns(all) && runs <= all
    requires SlotsOf(runs).None?
    ensures SlotsOf(all).None?
  {
    assert forall i :: 0 <= i < |runs| ==> all[i] == runs[i];
  }

  /** How the slots change when one more run closes. */
  lemma SlotsOfAppend(runs: seq<string>, x: string)
    requires ValidRuns(runs) && x != [] && AllDigits(x)
    requires SlotsOf(runs).Some?
    ensures ValidRuns(runs + [x])
    ensures SlotsOf(runs + [x]) ==
      if 1 <= |runs| <= 3 then
        (if Stoul(x).None? then None else Some(SlotsOf(runs).value[|runs| - 1 := Stoul(x).value]))
      else SlotsOf(runs)
  {
    var r := runs + [x];
    assert forall i :: 0 <= i < |runs| ==> r[i] == runs[i];
    assert r[|runs|] == x;
    var s := SlotsOf(runs).value;
    if 1 <= |runs| <= 3 && Stoul(x).Some? {
      var v := Stoul(x).value;
      if |runs| == 1 {
        assert s == [0, 0, 0];
        assert s[0 := v] == [v, 0, 0];
      } else if |runs| == 2 {
        assert s[1 := v] == [s[0], v, 0];
      } else {
        assert s[2 := v] == [s[0], s[1], v];
      }
    }
  }

  /** One round of the scanning loop, as the loop invariant sees it. */
  lemma FeedOne(st: Scan, name: string, k: nat)
    requires ValidScan(st) && k < |name|
    ensures Feed(st, name[k..]) == Feed(Step(st, name[k]), name[k + 1..])
  {
    assert name[k..][0] == name[k] && name[k..][1..] == name[k + 1..];
  }

  // ---------------------------------------------------------------------
  // The scanning loop

  /**
   * `parseNodeName` with the slot index checked: runs after the fourth are
   * ignored instead of being written past the three-slot array.
   */
  method ParseNodeName(name: string) returns (r: Option<NodeCoords>)
    ensures r == NodeNameCoords(name)
  {
    if name == "0" {
      return Some(NodeCoords(0, 0, 0));
    }
    var slots: seq<U32> := [0, 0, 0];
    var numberStr: string := [];
    var isNumber := false;
    var i: nat := 0;
    var k := 0;
    ghost var st := Scan([], []);
    while k < |name|
      invariant 0 <= k <= |name|
      invariant ValidScan(st) && numberStr == st.pending && i == |st.runs|
      invariant isNumber <==> numberStr != []
      invariant Feed(st, name[k..]) == Feed(Scan([], []), name)
      invariant SlotsOf(st.runs) == Some(slots)
    {
      var c := name[k];
      FeedOne(st, name, k);
      if IsDigit(c) {
        numberStr := numberStr + [c];
        isNumber := true;
      } else {
        if isNumber {
          SlotsOfAppend(st.runs, numberStr);
          if 0 < i <= 3 {
            var v := Stoul(numberStr);
            if v.None? {
              SlotsNoneExtends(st.runs + [numberStr], DigitRuns(name));
              return None;
            }
            slots := slots[i - 1 := v.value];
          }
          i := i + 1;
          isNumber := false;
        }
        numberStr := [];
      }
      st := Step(st, c);
      k := k + 1;
    }
    if isNumber {
      SlotsOfAppend(st.runs, numberStr);
      if 0 < i <= 3 {
        var v := Stoul(numberStr);
        if v.None? {
          return None;
        }
        slots := slots[i - 1 := v.value];
      }
    }
    r := Some(NodeCoords(slots[0], slots[1], slots[2]));
  }

  /**
   * `parseNodeName` exactly as written: every run after the first is stored
   * at `coordinates[i - 1]`, so a name with more than four digit runs would
   * write past the three slots.
   */
  method ParseNodeNameAsWritten(name: string) returns (r: Option<NodeCoords>)
    requires |DigitRuns(name)| <= 4
    ensures r == NodeNameCoords(name)
  {
    if name == "0" {
      return Some(NodeCoords(0, 0, 0));
    }
    var coordinates: seq<U32> := [0, 0, 0];
    var numberStr: string := [];
    var isNumber := false;
    var i: nat := 0;
    var k := 0;
    ghost var st := Scan([], []);
    while k < |name|
      invariant 0 <= k <= |name|
      invariant ValidScan(st) && numberStr == st.pending && i == |st.runs|
      invariant isNumber <==> numberStr != []
      invariant Feed(st, name[k..]) == Feed(Scan([], []), name)
      invariant SlotsOf(st.runs) == Some(coordinates)
    {
      var c := name[k];
      FeedOne(st, name, k);
      if IsDigit(c) {
        numberStr := numberStr + [c];
        isNumber := true;
      } else {
        if isNumber {
          SlotsOfAppend(st.runs, numberStr);
          assert st.runs + [numberStr] <= DigitRuns(name);
          if i > 0 {
            var v := Stoul(numberStr);
            if v.None? {
              SlotsNoneExtends(st.runs + [numberStr], DigitRuns(name));
              return None;
            }
            coordinates := coordinates[i - 1 := v.value];
          }
          i := i + 1;
          isNumber := false;
        }
        numberStr := [];
      }
      st := Step(st, c);
      k := k + 1;
    }
    if isNumber && i > 0 {
      SlotsOfAppend(st.runs, numberStr);
      var v := Stoul(numberStr);
      if v.None? {
        return None;
      }
      coordinates := coordinates[i - 1 := v.value];
    }
    r := Some(NodeCoords(coordinates[0], coordinates[1], coordinates[2]));
  }

  predicate Separator(q: string)
  {
    q != [] && forall i :: 0 <= i < |q| ==> !IsDigit(q[i])
  }

  /** A separator and a digit field after a prefix whose scan is known. */
  lemma FeedFieldAfter(p: string, st: Scan, q: string, d: string)
    requires Feed(Scan([], []), p) == st
    requires Separator(q) && AllDigits(d)
    ensures Feed(Scan([], []), p + q + d) == Scan(Close(st), d)
  {
    FeedAppend(Scan([], []), p, q + d);
    FeedField(st, q, d);
    assert p + (q + d) == p + q + d;
  }

  /** The name `n1_m1_2_3_4`: five digit runs, one more than the loop has slots for. */
  function FiveRunName(): string
  {
    "n" + "1" + "_m" + "1" + "_" + "2" + "_" + "3" + "_" + "4"
  }

  /** The five digit runs of `n1_m1_2_3_4`. */
  lemma FiveRunNameRuns()
    ensures DigitRuns(FiveRunName()) == ["1", "1", "2", "3", "4"]
  {
    var one, two, three, four := "1", "2", "3", "4";
    var p1 := "n" + one;
    var p2 := p1 + "_m" + one;
    var p3 := p2 + "_" + two;
    var p4 := p3 + "_" + three;
    FeedFieldAfter([], Scan([], []), "n", one);
    assert [] + "n" + one == p1;
    FeedFieldAfter(p1, Scan([], one), "_m", one);
    FeedFieldAfter(p2, Scan([one], one), "_", two);
    FeedFieldAfter(p3, Scan([one, one], two), "_", three);
    FeedFieldAfter(p4, Scan([one, one, two], three), "_", four);
  }

  /**
   * A name with five digit runs: the as-written loop would store the fifth
   * at `coordinates[3]`, one past the last slot; the checked loop yields
   * the first four runs' coordinates.
   */
  lemma FifthDigitRunHasNoSlot()
    ensures |DigitRuns(FiveRunName())| == 5
    ensures NodeNameCoords(FiveRunName()) == Some(NodeCoords(1, 2, 3))
  {
    FiveRunNameRuns();
    assert FiveRunName()[0] == 'n';
    var one, two, three := "1", "2", "3";
    assert DigitsValue(one) == 1 && DigitsValue(two) == 2 && DigitsValue(three) == 3;
  }

  // ---------------------------------------------------------------------
  // The node field the serialisers write

  /** `n1_m<L>_<X>_<Y>`, the node field of every serialised element. */
  function NodeField(layer: U8, x: U32, y: U32): (f: string)
    ensures ' ' !in f && f != []
  {
    "n" + "1" + "_m" + NatToString(layer) + "_" + NatToString(x) + "_" + NatToString(y)
  }

  /** The digit runs of a node field are the net number 1 and the three coordinates. */
  lemma NodeFieldRuns(layer: U8, x: U32, y: U32)
    ensures DigitRuns(NodeField(layer, x, y)) ==
      ["1", NatToString(layer), NatToString(x), NatToString(y)]
  {
    var l, xs, ys := NatToString(layer), NatToString(x), NatToString(y);
    var one := "1";
    var p1 := "n" + one;
    var p2 := p1 + "_m" + l;
    var p3 := p2 + "_" + xs;
    var p4 := p3 + "_" + ys;
    FeedFieldAfter([], Scan([], []), "n", one);
    assert [] + "n" + one == p1;
    FeedFieldAfter(p1, Scan([], one), "_m", l);
    FeedFieldAfter(p2, Scan([one], l), "_", xs);
    FeedFieldAfter(p3, Scan([one, l], xs), "_", ys);
    assert p4 == NodeField(layer, x, y);
  }

  /**
   * Round trip: parsing the node field written for stored coordinates
   * (layer, x, y) gives back exactly (layer, x, y).
   */
  lemma NodeFieldRoundTrip(layer: U8, x: U32, y: U32)
    ensures NodeNameCoords(NodeField(layer, x, y)) == Some(NodeCoords(layer, x, y))
  {
    NodeFieldRuns(layer, x, y);
    NatToStringRoundTrip(layer);
    NatToStringRoundTrip(x);
    NatToStringRoundTrip(y);
    var f := NodeField(layer, x, y);
    assert f[0] == 'n';
    assert f != "0";
  }
}
