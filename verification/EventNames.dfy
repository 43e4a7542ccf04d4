/** Names on the event bus: event files and reaper sentinels. */
module EventNames {
  import opened Options
  import opened JsonText
  import S = Sorting

  const TIMESTAMP_WIDTH: nat := 13
  const SEQ_WIDTH: nat := 6

  function Zeros(n: nat): (r: string)
    ensures |r| == n
  {
    if n == 0 then "" else "0" + Zeros(n - 1)
  }

  /** Zero-padded to `width`, longer when the number is. */
  function Padded(n: nat, width: nat): string {
    var digits := Digits(n);
    if |digits| >= width then digits else Zeros(width - |digits|) + digits
  }

  function EventName(ts: nat, producer: string, seqno: nat): string {
    Padded(ts, TIMESTAMP_WIDTH) + "-" + producer + "-" + Padded(seqno, SEQ_WIDTH)
  }

  /** What a reaper pass found: a stalled lane, or a selection that is due. */
  datatype Signal = LaneStalled(lane: string, epoch: int, reason: string) | SelectionDue(iteration: int)

  /** The sentinel of a signal. */
  function ReaperKey(s: Signal): string {
    match s
    case LaneStalled(lane, epoch, _) => "lane_stalled-" + lane + "-e" + Decimal(epoch)
    case SelectionDue(iteration) => "selection_due-i" + Decimal(iteration)
  }

  // ----- reading the numbers back -----

  lemma ZeroInFront(zeros: string, tail: string)
    ensures ReadDigits("0" + zeros + tail, 0) == ReadDigits(zeros + tail, 0)
  {
    assert ("0" + zeros + tail)[1..] == zeros + tail;
  }

  lemma {:induction false} ZerosRead(n: nat, tail: string)
    ensures ReadDigits(Zeros(n) + tail, 0) == ReadDigits(tail, 0)
  {
    if n == 0 {
      assert Zeros(n) + tail == tail;
    } else {
      ZerosRead(n - 1, tail);
      ZeroInFront(Zeros(n - 1), tail);
    }
  }

  lemma PaddedRead(n: nat, width: nat, tail: string)
    requires tail == "" || !IsDigit(tail[0])
    ensures ReadDigits(Padded(n, width) + tail, 0) == (n, tail)
  {
    DigitsRead(n, tail);
    var digits := Digits(n);
    if |digits| < width {
      ZerosRead(width - |digits|, digits + tail);
      Regroup(Zeros(width - |digits|), digits, tail);
    }
  }

  lemma {:induction false} DigitsOnly(n: nat)
    ensures forall i :: 0 <= i < |Digits(n)| ==> IsDigit(Digits(n)[i])
  {
    if n >= 10 {
      DigitsOnly(n / 10);
    }
  }

  lemma {:induction false} ZerosOnly(n: nat)
    ensures forall i :: 0 <= i < n ==> Zeros(n)[i] == '0'
  {
    if n > 0 {
      ZerosOnly(n - 1);
    }
  }

  lemma PaddedOnly(n: nat, width: nat)
    ensures forall i :: 0 <= i < |Padded(n, width)| ==> IsDigit(Padded(n, width)[i])
  {
    DigitsOnly(n);
    if |Digits(n)| < width {
      ZerosOnly(width - |Digits(n)|);
    }
  }

  // ----- distinct names -----

  lemma EarlierSplit(a: string, x: string, b: string, y: string, c: char)
    requires a + [c] + x == b + [c] + y && |a| < |b|
    ensures c in x
  {
    var t := a + [c] + x;
    assert t[|b|] == (b + [c] + y)[|b|] == c;
    assert t[|b|] == x[|b| - |a| - 1];
  }

  /** A text splits in one way at its last `c`. */
  lemma LastSplit(a: string, x: string, b: string, y: string, c: char)
    requires a + [c] + x == b + [c] + y
    requires c !in x && c !in y
    ensures a == b && x == y
  {
    if |a| < |b| {
      EarlierSplit(a, x, b, y, c);
    } else if |b| < |a| {
      EarlierSplit(b, y, a, x, c);
    }
    var t := a + [c] + x;
    assert a == t[..|a|] == b;
    assert x == t[|a| + 1..] == y;
  }

  lemma NameSplits(ts: string, producer: string, seqno: string)
    ensures ts + "-" + producer + "-" + seqno == ts + ("-" + producer + "-" + seqno)
  {
  }

  /** Two emits with different timestamps, producers or sequence numbers name different files. */
  lemma EventNamesDiffer(ts: nat, producer: string, seqno: nat, ts': nat, producer': string, seqno': nat)
    ensures EventName(ts, producer, seqno) == EventName(ts', producer', seqno') <==>
            ts == ts' && producer == producer' && seqno == seqno'
  {
    if EventName(ts, producer, seqno) == EventName(ts', producer', seqno') {
      var x, y := Padded(seqno, SEQ_WIDTH), Padded(seqno', SEQ_WIDTH);
      var rest, rest' := "-" + producer + "-" + x, "-" + producer' + "-" + y;
      NameSplits(Padded(ts, TIMESTAMP_WIDTH), producer, x);
      NameSplits(Padded(ts', TIMESTAMP_WIDTH), producer', y);
      PaddedRead(ts, TIMESTAMP_WIDTH, rest);
      PaddedRead(ts', TIMESTAMP_WIDTH, rest');
      PaddedOnly(seqno, SEQ_WIDTH);
      PaddedOnly(seqno', SEQ_WIDTH);
      assert '-' !in x && '-' !in y;
      LastSplit("-" + producer, x, "-" + producer', y, '-');
      assert ("-" + producer)[1..] == producer && ("-" + producer')[1..] == producer';
      PaddedRead(seqno, SEQ_WIDTH, "");
      PaddedRead(seqno', SEQ_WIDTH, "");
      assert x + "" == y + "";
    }
  }

  lemma DecimalHasNo(n: int, c: char)
    requires !IsDigit(c) && c != '-'
    ensures c !in Decimal(n)
  {
    DigitsOnly(if n < 0 then -n else n);
  }

  lemma DecimalDiffers(m: int, n: int)
    requires Decimal(m) == Decimal(n)
    ensures m == n
  {
    DecimalRound(m, "");
    DecimalRound(n, "");
    assert Decimal(m) + "" == Decimal(n) + "";
  }

  lemma LaneKeysDiffer(lane: string, epoch: int, lane': string, epoch': int)
    requires "lane_stalled-" + lane + "-e" + Decimal(epoch) == "lane_stalled-" + lane' + "-e" + Decimal(epoch')
    ensures lane == lane' && epoch == epoch'
  {
    var x, y := Decimal(epoch), Decimal(epoch');
    DecimalHasNo(epoch, 'e');
    DecimalHasNo(epoch', 'e');
    var a, b := "lane_stalled-" + lane + "-", "lane_stalled-" + lane' + "-";
    assert "lane_stalled-" + lane + "-e" + x == a + ['e'] + x;
    assert "lane_stalled-" + lane' + "-e" + y == b + ['e'] + y;
    LastSplit(a, x, b, y, 'e');
    assert a[13..|a| - 1] == lane && b[13..|b| - 1] == lane';
    DecimalDiffers(epoch, epoch');
  }

  /** Signals share a sentinel exactly when they are about the same lane and epoch, or the same
      iteration; the reason does not matter. */
  lemma ReaperKeysDiffer(s: Signal, t: Signal)
    ensures ReaperKey(s) == ReaperKey(t) <==>
            (s.LaneStalled? && t.LaneStalled? && s.lane == t.lane && s.epoch == t.epoch) ||
            (s.SelectionDue? && t.SelectionDue? && s.iteration == t.iteration)
  {
    var k, l := ReaperKey(s), ReaperKey(t);
    if k == l {
      assert k[0] == if s.LaneStalled? then 'l' else 's';
      assert l[0] == if t.LaneStalled? then 'l' else 's';
      if s.LaneStalled? {
        LaneKeysDiffer(s.lane, s.epoch, t.lane, t.epoch);
      } else {
        assert k[15..] == Decimal(s.iteration) && l[15..] == Decimal(t.iteration);
        DecimalDiffers(s.iteration, t.iteration);
      }
    }
  }

  // ----- the order of names -----

  predicate AllDigits(s: string) {
    forall i :: 0 <= i < |s| ==> IsDigit(s[i])
  }

  function Value(s: string): nat {
    ReadDigits(s, 0).0
  }

  /** A higher start keeps the lead over as many more digits. */
  lemma {:induction false} LeadKept(x: string, y: string, p: nat, q: nat)
    requires |x| == |y| && AllDigits(x) && AllDigits(y) && p < q
    ensures ReadDigits(x, p).0 < ReadDigits(y, q).0
    decreases |x|
  {
    if x != "" {
      LeadKept(x[1..], y[1..], p * 10 + (x[0] as int - '0' as int), q * 10 + (y[0] as int - '0' as int));
    }
  }

  /** Digits of one length are in text order exactly when their values are in order. */
  lemma {:induction false} SameLengthOrder(x: string, y: string, p: nat)
    requires |x| == |y| && AllDigits(x) && AllDigits(y)
    ensures S.TextLe(x, y) <==> ReadDigits(x, p).0 <= ReadDigits(y, p).0
    decreases |x|
  {
    if x != "" {
      var c, d := x[0] as int - '0' as int, y[0] as int - '0' as int;
      if c < d {
        LeadKept(x[1..], y[1..], p * 10 + c, p * 10 + d);
      } else if d < c {
        LeadKept(y[1..], x[1..], p * 10 + d, p * 10 + c);
      } else {
        SameLengthOrder(x[1..], y[1..], p * 10 + c);
      }
    }
  }

  lemma {:induction false} PrefixOrder(x: string, y: string, rest: string)
    requires |x| == |y|
    ensures S.TextLe(x, y + rest) <==> S.TextLe(x, y)
  {
    if x != "" {
      assert (y + rest)[1..] == y[1..] + rest;
      PrefixOrder(x[1..], y[1..], rest);
    }
  }

  lemma {:induction false} ReadOneMore(s: string, c: char, acc: nat)
    requires AllDigits(s) && IsDigit(c)
    ensures ReadDigits(s + [c], acc).0 == ReadDigits(s, acc).0 * 10 + (c as int - '0' as int)
    decreases |s|
  {
    if s == "" {
      assert (s + [c])[1..] == "";
    } else {
      assert (s + [c])[1..] == s[1..] + [c];
      ReadOneMore(s[1..], c, acc * 10 + (s[0] as int - '0' as int));
    }
  }

  /** A number without its last `d` digits. */
  function Chopped(n: nat, d: nat): nat
    decreases d
  {
    if d == 0 then n else Chopped(n / 10, d - 1)
  }

  lemma {:induction false} ValueChopped(s: string, rest: string)
    requires AllDigits(s) && AllDigits(rest)
    ensures Chopped(Value(s + rest), |rest|) == Value(s)
    decreases |rest|
  {
    if rest == "" {
      assert s + rest == s;
    } else {
      var shorter, c := rest[..|rest| - 1], rest[|rest| - 1];
      assert s + rest == (s + shorter) + [c];
      ReadOneMore(s + shorter, c, 0);
      ValueChopped(s, shorter);
    }
  }

  /** Digits of two lengths: the shorter text comes first exactly when its value is at most that of
      the longer one, cut to the same length. */
  lemma DigitsOrder(x: string, y: string)
    requires AllDigits(x) && AllDigits(y) && |x| <= |y|
    ensures S.TextLe(x, y) <==> Value(x) <= Chopped(Value(y), |y| - |x|)
  {
    var front, rest := y[..|x|], y[|x|..];
    assert y == front + rest;
    PrefixOrder(x, front, rest);
    SameLengthOrder(x, front, 0);
    ValueChopped(front, rest);
  }

  lemma PaddedValue(n: nat, width: nat)
    ensures AllDigits(Padded(n, width)) && Value(Padded(n, width)) == n
  {
    PaddedOnly(n, width);
    PaddedRead(n, width, "");
    assert Padded(n, width) + "" == Padded(n, width);
  }

  lemma {:induction false} SamePrefixOrder(p: string, x: string, y: string)
    ensures S.TextLe(p + x, p + y) <==> S.TextLe(x, y)
  {
    if p == "" {
      assert p + x == x && p + y == y;
    } else {
      assert (p + x)[1..] == p[1..] + x && (p + y)[1..] == p[1..] + y;
      SamePrefixOrder(p[1..], x, y);
    }
  }

  lemma {:induction false} DifferentPrefixOrder(x: string, y: string, a: string, b: string)
    requires |x| == |y| && x != y
    ensures S.TextLe(x + a, y + b) <==> S.TextLe(x, y)
  {
    assert (x + a)[1..] == x[1..] + a && (y + b)[1..] == y[1..] + b;
    if x[0] == y[0] {
      assert x == [x[0]] + x[1..] && y == [y[0]] + y[1..];
      DifferentPrefixOrder(x[1..], y[1..], a, b);
    }
  }

  /** Names of one producer and moment sort by sequence number exactly as far as the padding goes:
      the lower number comes first if and only if it is at most the higher one without the digits
      that the higher one has more. */
  lemma SequenceOrder(ts: nat, producer: string, a: nat, b: nat)
    requires a < b
    ensures |Padded(a, SEQ_WIDTH)| <= |Padded(b, SEQ_WIDTH)|
    ensures S.TextLe(EventName(ts, producer, a), EventName(ts, producer, b)) <==>
            a <= Chopped(b, |Padded(b, SEQ_WIDTH)| - |Padded(a, SEQ_WIDTH)|)
  {
    var x, y := Padded(a, SEQ_WIDTH), Padded(b, SEQ_WIDTH);
    DigitsGrow(a, b);
    PaddedValue(a, SEQ_WIDTH);
    PaddedValue(b, SEQ_WIDTH);
    DigitsOrder(x, y);
    SamePrefixOrder(Padded(ts, TIMESTAMP_WIDTH) + "-" + producer + "-", x, y);
  }

  lemma {:induction false} DigitsGrow(a: nat, b: nat)
    requires a <= b
    ensures |Digits(a)| <= |Digits(b)|
  {
    if a >= 10 {
      DigitsGrow(a / 10, b / 10);
    }
  }

  /** Below a million, names sort by sequence number; */
  lemma SequencesSort(ts: nat, producer: string, a: nat, b: nat)
    requires a < b < 1000000
    ensures S.TextLe(EventName(ts, producer, a), EventName(ts, producer, b))
  {
    DigitsGrow(a, 999999);
    DigitsGrow(b, 999999);
    SixDigits();
    SequenceOrder(ts, producer, a, b);
  }

  lemma SixDigits()
    ensures |Digits(999999)| == 6 && |Digits(1000000)| == 7
  {
    assert |Digits(999)| == 3 && |Digits(1000)| == 4;
    assert 999999 / 10 / 10 / 10 == 999 && 1000000 / 10 / 10 / 10 == 1000;
    assert |Digits(999999)| == |Digits(99999)| + 1 && |Digits(99999)| == |Digits(9999)| + 1;
    assert |Digits(1000000)| == |Digits(100000)| + 1 && |Digits(100000)| == |Digits(10000)| + 1;
  }

  /** the number after the last padded one does not. */
  lemma SequenceOverflows(ts: nat, producer: string)
    ensures !S.TextLe(EventName(ts, producer, 999999), EventName(ts, producer, 1000000))
  {
    SixDigits();
    SequenceOrder(ts, producer, 999999, 1000000);
    assert Chopped(1000000, 1) == Chopped(100000, 0) == 100000;
  }

  /** Names sort by time as long as times have one width: whatever the producers and numbers, an
      earlier event comes first. */
  lemma EarlierSortsFirst(ts: nat, producer: string, a: nat, ts': nat, producer': string, b: nat)
    requires ts < ts' && |Digits(ts')| <= TIMESTAMP_WIDTH
    ensures S.TextLe(EventName(ts, producer, a), EventName(ts', producer', b))
    ensures !S.TextLe(EventName(ts', producer', b), EventName(ts, producer, a))
  {
    var x, y := Padded(ts, TIMESTAMP_WIDTH), Padded(ts', TIMESTAMP_WIDTH);
    DigitsGrow(ts, ts');
    PaddedValue(ts, TIMESTAMP_WIDTH);
    PaddedValue(ts', TIMESTAMP_WIDTH);
    SameLengthOrder(x, y, 0);
    SameLengthOrder(y, x, 0);
    NameSplits(x, producer, Padded(a, SEQ_WIDTH));
    NameSplits(y, producer', Padded(b, SEQ_WIDTH));
    DifferentPrefixOrder(x, y, "-" + producer + "-" + Padded(a, SEQ_WIDTH), "-" + producer' + "-" + Padded(b, SEQ_WIDTH));
    DifferentPrefixOrder(y, x, "-" + producer' + "-" + Padded(b, SEQ_WIDTH), "-" + producer + "-" + Padded(a, SEQ_WIDTH));
  }
}
