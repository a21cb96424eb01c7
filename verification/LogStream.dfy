/**
 Formatting into a buffer of fixed size (water/base/log_stream.cc, water/base/log_stream.h).
 */
module LogStreams {
  import opened Wrappers
  import opened TruncatedDivision
  import opened Numerals

  // The values of the signed and unsigned 64-bit types.
  type machineInt = v: int | -0x8000_0000_0000_0000 <= v < 0x1_0000_0000_0000_0000
  type uintptr = v: int | 0 <= v < 0x1_0000_0000_0000_0000

  const SMALL_BUFFER := 4000
  const MAX_NUMERIC_SIZE := 32

  // kDigits, and kZero as an offset into it: the digit of a negative remainder is found to the left.
  const K_DIGITS := "9876543210123456789"
  const K_ZERO := 9
  const K_DIGITS_HEX := "0123456789ABCDEF"

  function Magnitude(v: int): nat {
    if v < 0 then -v else v
  }

  method DecimalDigit(lsd: int) returns (c: char)
    requires -9 <= lsd <= 9
    ensures c == Digit(Magnitude(lsd))
  {
    c := K_DIGITS[K_ZERO + lsd];
  }

  method HexDigit(lsd: nat) returns (c: char)
    requires lsd < 16
    ensures c == Digit(lsd)
  {
    c := K_DIGITS_HEX[lsd];
  }

  lemma TruncatedDivisionKeepsMagnitude(v: int)
    ensures -9 <= TruncMod(v, 10) <= 9 && Magnitude(TruncMod(v, 10)) == Ten.Remainder(Magnitude(v))
    ensures Magnitude(TruncDiv(v, 10)) == Ten.Quotient(Magnitude(v))
  {
  }

  function Reversed(s: string): (r: string)
    ensures |r| == |s|
  {
    if s == "" then "" else Reversed(s[1..]) + [s[0]]
  }

  lemma {:induction false} ReversedConcat(s: string, t: string)
    ensures Reversed(s + t) == Reversed(t) + Reversed(s)
  {
    if s == "" {
      assert s + t == t;
    } else {
      assert (s + t)[1..] == s[1..] + t;
      ReversedConcat(s[1..], t);
    }
  }

  lemma {:induction false} ReversedAt(s: string, k: nat)
    requires k < |s|
    ensures Reversed(s)[k] == s[|s| - 1 - k]
  {
    if k < |s| - 1 {
      ReversedAt(s[1..], k);
    }
  }

  // std::reverse
  method ReverseInPlace(buf: array<char>, lo: nat, hi: nat)
    requires lo <= hi <= buf.Length
    modifies buf
    ensures buf[..hi] == old(buf[..lo]) + Reversed(old(buf[lo..hi]))
    ensures buf[hi..] == old(buf[hi..])
  {
    ghost var front, was := buf[..lo], buf[lo..hi];
    forall k | lo <= k < hi {
      buf[k] := buf[lo + hi - 1 - k];
    }
    ghost var result := front + Reversed(was);
    forall k | 0 <= k < hi
      ensures buf[k] == result[k]
    {
      if k >= lo {
        ReversedAt(was, k - lo);
        assert was[hi - 1 - k] == old(buf[lo + hi - 1 - k]);
      } else {
        assert front[k] == old(buf[k]);
      }
    }
    assert buf[..hi] == result;
  }

  lemma MoveAcross(front: string, c: char, done: string)
    ensures (front + [c]) + Reversed(done) == front + Reversed(done + [c])
  {
    ReversedConcat(done, [c]);
  }

  // Peeling one digit off a number, and putting it behind the digits already peeled off.
  lemma TakeDigit(n: nat, b: Base, done: string)
    ensures Numeral(n, b) + Reversed(done) ==
              (if n < b.Radix() then "" else Numeral(b.Quotient(n), b)) + Reversed(done + [Digit(b.Remainder(n))])
  {
    MoveAcross(if n < b.Radix() then "" else Numeral(b.Quotient(n), b), Digit(b.Remainder(n)), done);
  }

  // *p++ = c
  method PutChar(buf: array<char>, p: nat, c: char) returns (next: nat)
    requires p < buf.Length
    modifies buf
    ensures next == p + 1 && buf[..next] == old(buf[..p]) + [c]
  {
    buf[p] := c;
    next := p + 1;
  }

  // Digits come out last first, without ever negating the value; the least value of a signed type
  // has no positive counterpart.
  method PutDigits(buf: array<char>, at: nat, value: int) returns (p: nat, ghost done: string)
    requires at + |Numeral(Magnitude(value), Ten)| <= buf.Length
    modifies buf
    ensures p <= buf.Length && buf[..p] == old(buf[..at]) + done
    ensures Reversed(done) == Numeral(Magnitude(value), Ten)
  {
    var i := value;
    p, done := at, "";
    ghost var front := buf[..at];
    ghost var whole := Numeral(Magnitude(value), Ten);
    ghost var rest := whole;
    while true
      invariant p + |rest| <= buf.Length
      invariant rest == Numeral(Magnitude(i), Ten)
      invariant whole == rest + Reversed(done)
      invariant buf[..p] == front + done
      decreases Magnitude(i)
    {
      TakeDigit(Magnitude(i), Ten, done);
      TruncatedDivisionKeepsMagnitude(i);
      var digit := DecimalDigit(TruncMod(i, 10));
      i := TruncDiv(i, 10);
      rest := if i == 0 then "" else Numeral(Magnitude(i), Ten);
      p := PutChar(buf, p, digit);
      assert (front + done) + [digit] == front + (done + [digit]);
      done := done + [digit];
      if i == 0 {
        break;
      }
    }
  }

  // The sign, put behind the reversed digits.
  lemma SignComesFirst(digits: string, value: int)
    requires Reversed(digits) == Numeral(Magnitude(value), Ten)
    ensures Reversed(if value < 0 then digits + "-" else digits) == Decimal(value)
    ensures |Decimal(value)| == |digits| + if value < 0 then 1 else 0
  {
    ReversedConcat(digits, "-");
  }

  // Convert, for any integer type
  method Convert(buf: array<char>, at: nat, value: int) returns (len: nat)
    requires at + |Decimal(value)| < buf.Length
    modifies buf
    ensures len == |Decimal(value)|
    ensures buf[..at + len] == old(buf[..at]) + Decimal(value) && buf[at + len] == '\0'
  {
    ghost var front := buf[..at];
    var p, text := PutDigits(buf, at, value);
    SignComesFirst(text, value);
    if value < 0 {
      p := PutChar(buf, p, '-');
      assert (front + text) + "-" == front + (text + "-");
      text := text + "-";
    }
    Finish(buf, at, p, front, text);
    len := p - at;
  }

  // The end of both conversions: a terminator, and the characters put in order.
  method Finish(buf: array<char>, at: nat, p: nat, ghost front: string, ghost text: string)
    requires |front| == at && p < buf.Length && buf[..p] == front + text
    modifies buf
    ensures buf[..p] == front + Reversed(text) && buf[p] == '\0'
  {
    buf[p] := '\0';
    assert buf[..p] == front + text;
    assert buf[..at] == buf[..p][..at] && buf[at..p] == buf[..p][at..];
    ReverseInPlace(buf, at, p);
    assert buf[p] == buf[p..][0];
  }

  method PutHexDigits(buf: array<char>, at: nat, value: nat) returns (p: nat, ghost done: string)
    requires at + |Numeral(value, Sixteen)| <= buf.Length
    modifies buf
    ensures p <= buf.Length && buf[..p] == old(buf[..at]) + done
    ensures Reversed(done) == Numeral(value, Sixteen)
  {
    var i := value;
    p, done := at, "";
    ghost var front := buf[..at];
    ghost var whole := Numeral(value, Sixteen);
    ghost var rest := whole;
    while true
      invariant p + |rest| <= buf.Length
      invariant rest == Numeral(i, Sixteen)
      invariant whole == rest + Reversed(done)
      invariant buf[..p] == front + done
      decreases i
    {
      TakeDigit(i, Sixteen, done);
      var digit := HexDigit(i % 16);
      i := i / 16;
      rest := if i == 0 then "" else Numeral(i, Sixteen);
      p := PutChar(buf, p, digit);
      assert (front + done) + [digit] == front + (done + [digit]);
      done := done + [digit];
      if i == 0 {
        break;
      }
    }
  }

  method ConvertHex(buf: array<char>, at: nat, value: uintptr) returns (len: nat)
    requires at + |Numeral(value, Sixteen)| < buf.Length
    modifies buf
    ensures len == |Numeral(value, Sixteen)|
    ensures buf[..at + len] == old(buf[..at]) + Numeral(value, Sixteen) && buf[at + len] == '\0'
  {
    ghost var front := buf[..at];
    var p, text := PutHexDigits(buf, at, value);
    Finish(buf, at, p, front, text);
    len := p - at;
  }

  lemma PrefixOfConcat(a: string, b: string, n: nat)
    requires n <= |b|
    ensures (a + b)[..|a| + n] == a + b[..n]
  {
  }

  // The part of operator<<(const void*) that writes: the prefix and the number.
  method WritePointer(buf: array<char>, at: nat, value: uintptr) returns (len: nat)
    requires at + 2 + |Numeral(value, Sixteen)| < buf.Length
    modifies buf
    ensures len == |Numeral(value, Sixteen)|
    ensures buf[..at + len] == old(buf[..at]) + PointerText(value)
  {
    ghost var front, hex := buf[..at], Numeral(value, Sixteen);
    var p := PutChar(buf, at, '0');
    p := PutChar(buf, p, 'x');
    len := ConvertHex(buf, p, value);
    assert ((front + ['0']) + ['x']) + hex == front + ("0x" + hex);
    PrefixOfConcat(front, "0x" + hex, len);
    assert buf[..at + len] == buf[..p + len][..at + len];
  }

  class FixedBuffer {
    const data: array<char>
    var cur: nat

    // At least one byte stays free.
    ghost predicate Valid()
      reads this
    {
      cur < data.Length
    }

    ghost function Contents(): string
      requires Valid()
      reads this, data
    {
      data[..cur]
    }

    constructor (size: nat)
      requires size > 0
      ensures Valid() && Contents() == "" && data.Length == size && fresh(data)
    {
      data := new char[size];
      cur := 0;
    }

    function Avail(): nat
      requires Valid()
      reads this
    {
      data.Length - cur
    }

    method Append(text: string)
      requires Valid()
      modifies this, data
      ensures Valid()
      ensures Contents() == old(Contents()) + if old(Avail()) > |text| then text else ""
    {
      if Avail() > |text| {
        ghost var was := Contents();
        forall i | 0 <= i < |text| {
          data[cur + i] := text[i];
        }
        assert data[..cur] == was && data[cur..cur + |text|] == text;
        cur := cur + |text|;
      }
    }
  }

  class LogStream {
    const buffer: FixedBuffer

    constructor ()
      ensures buffer.Valid() && buffer.Contents() == "" && buffer.data.Length == 4000
      ensures fresh(buffer) && fresh(buffer.data)
    {
      buffer := new FixedBuffer(SMALL_BUFFER);
    }

    // FormatInteger: operator<< of every integer type
    method PutInteger(v: machineInt)
      requires buffer.Valid()
      modifies buffer, buffer.data
      ensures buffer.Valid()
      ensures buffer.Contents() ==
                old(buffer.Contents()) + if old(buffer.Avail()) >= 32 then Decimal(v) else ""
    {
      if buffer.Avail() >= MAX_NUMERIC_SIZE {
        DecimalIsShort(v);
        var len := Convert(buffer.data, buffer.cur, v);
        buffer.cur := buffer.cur + len;
      }
    }

    // operator<<(const void*): the two characters of the prefix are written but not counted.
    method PutPointer(v: uintptr)
      requires buffer.Valid()
      modifies buffer, buffer.data
      ensures buffer.Valid()
      ensures buffer.Contents() ==
                old(buffer.Contents()) + if old(buffer.Avail()) >= 32 then PointerText(v) else ""
    {
      if buffer.Avail() >= MAX_NUMERIC_SIZE {
        HexIsShort(v);
        var len := WritePointer(buffer.data, buffer.cur, v);
        buffer.cur := buffer.cur + len;
      }
    }
  }

  lemma HexIsShort(v: uintptr)
    ensures |Numeral(v, Sixteen)| <= 16
  {
    assert Sixteen.Power(4) == 0x1_0000;
    assert Sixteen.Power(8) == 0x1_0000_0000;
    assert Sixteen.Power(12) == 0x1_0000_0000_0000;
    NumeralLength(v, Sixteen, 16);
  }

  // What operator<<(const void*) leaves of a pointer.
  function PointerText(v: uintptr): string {
    var hex := Numeral(v, Sixteen);
    ("0x" + hex)[..|hex|]
  }

  lemma PointerTextUpTo(v: uintptr)
    ensures PointerText(v) == if v < 16 then "0" else if v < 256 then "0x" else "0x" + Numeral(v / 256, Sixteen)
  {
    var hex := Numeral(v, Sixteen);
    if v >= 256 {
      assert hex == Numeral(v / 16, Sixteen) + [Digit(v % 16)];
      assert Numeral(v / 16, Sixteen) == Numeral(v / 16 / 16, Sixteen) + [Digit(v / 16 % 16)];
      assert v / 16 / 16 == v / 256;
      assert ("0x" + hex)[..|hex|] == "0x" + Numeral(v / 256, Sixteen);
    } else if v >= 16 {
      assert Numeral(v / 16, Sixteen) == [Digit(v / 16)];
      assert |hex| == 2;
    }
  }

  // It lacks the last two characters, so pointers that differ only in the low byte print alike.
  lemma PointersPrintAlikeIff(v: uintptr, w: uintptr)
    ensures PointerText(v) == PointerText(w) <==> v / 256 == w / 256 && (v < 16 <==> w < 16)
  {
    PointerTextUpTo(v);
    PointerTextUpTo(w);
    NumeralRoundTrip(v / 256, Sixteen);
    NumeralRoundTrip(w / 256, Sixteen);
    if v >= 256 && w >= 256 && PointerText(v) == PointerText(w) {
      assert Numeral(v / 256, Sixteen) == PointerText(v)[2..] == PointerText(w)[2..] == Numeral(w / 256, Sixteen);
    }
  }

  /* ---------- Whole runs ---------- */

  datatype Item = Text(text: string) | Integer(value: machineInt)

  function Image(item: Item): string {
    match item
    case Text(text) => text
    case Integer(v) => Decimal(v)
  }

  // Whether an item is taken when used characters of size are in use.
  predicate Fits(item: Item, used: nat, size: nat) {
    match item
    case Text(text) => used + |text| < size
    case Integer(_) => used + MAX_NUMERIC_SIZE <= size
  }

  function ImageAll(items: seq<Item>): string {
    if items == [] then "" else ImageAll(items[..|items| - 1]) + Image(items[|items| - 1])
  }

  // The items of a run that are taken, in order.
  function Taken(items: seq<Item>, size: nat): seq<Item> {
    if items == [] then []
    else
      var before := Taken(items[..|items| - 1], size);
      var item := items[|items| - 1];
      if Fits(item, |ImageAll(before)|, size) then before + [item] else before
  }

  method Put(stream: LogStream, item: Item)
    requires stream.buffer.Valid()
    modifies stream.buffer, stream.buffer.data
    ensures stream.buffer.Valid()
    ensures stream.buffer.Contents() == old(stream.buffer.Contents()) +
              if Fits(item, old(stream.buffer.cur), stream.buffer.data.Length) then Image(item) else ""
  {
    match item {
      case Text(text) => stream.buffer.Append(text);
      case Integer(v) => stream.PutInteger(v);
    }
  }

  // Where the k-th of several items begins and ends when they are printed one after the other.
  function Slice(contents: string, items: seq<Item>, k: nat): string
    requires k < |items| && |ImageAll(items[..k])| + |Image(items[k])| <= |contents|
  {
    contents[|ImageAll(items[..k])|..][..|Image(items[k])|]
  }

  // What is printed in front of the k-th item, the item itself, and what follows it.
  lemma {:induction false} ImageSplits(items: seq<Item>, k: nat) returns (rest: string)
    requires k < |items|
    ensures ImageAll(items) == ImageAll(items[..k]) + Image(items[k]) + rest
    decreases |items|
  {
    var n := |items| - 1;
    var front, last := items[..n], Image(items[n]);
    ImageOfLast(items);
    if k < n {
      var middle := ImageSplits(front, k);
      var before, image := ImageAll(items[..k]), Image(items[k]);
      assert front[..k] == items[..k];
      rest := middle + last;
      Rejoin(before, image, middle, last);
    } else {
      rest := "";
      Rejoin(ImageAll(front), last, "", "");
    }
  }

  lemma ImageOfLast(items: seq<Item>)
    requires items != []
    ensures ImageAll(items) == ImageAll(items[..|items| - 1]) + Image(items[|items| - 1])
  {
  }

  lemma Rejoin(a: string, b: string, c: string, d: string)
    ensures a + b + c + d == a + b + (c + d)
    ensures a + b + "" == a + b
  {
  }

  lemma MiddleSlice(a: string, b: string, c: string)
    ensures (a + b + c)[|a|..][..|b|] == b
  {
    assert (a + b + c)[|a|..] == b + c;
  }

  lemma SliceIsImage(items: seq<Item>, k: nat)
    requires k < |items|
    ensures |ImageAll(items[..k])| + |Image(items[k])| <= |ImageAll(items)|
    ensures Slice(ImageAll(items), items, k) == Image(items[k])
  {
    var rest := ImageSplits(items, k);
    MiddleSlice(ImageAll(items[..k]), Image(items[k]), rest);
  }

  // The integer at position k of the items reads back from its place in the contents.
  predicate ReadsBack(contents: string, items: seq<Item>, k: nat)
    requires k < |items| && items[k].Integer?
  {
    && |ImageAll(items[..k])| + |Image(items[k])| <= |contents|
    && ParseDecimal(Slice(contents, items, k)) == Some(items[k].value)
  }

  lemma PrintedIntegersReadBack(items: seq<Item>, k: nat)
    requires k < |items| && items[k].Integer?
    ensures ReadsBack(ImageAll(items), items, k)
  {
    SliceIsImage(items, k);
    DecimalRoundTrip(items[k].value);
  }

  // Over any run of texts and integers the buffer holds whole items only, one after the other, and each
  // integer that was taken can be read back from its place in the buffer.
  method PutAll(items: seq<Item>) returns (stream: LogStream)
    ensures stream.buffer.Valid() && stream.buffer.Contents() == ImageAll(Taken(items, SMALL_BUFFER))
    ensures var taken := Taken(items, SMALL_BUFFER);
            forall k: nat :: k < |taken| && taken[k].Integer? ==> ReadsBack(stream.buffer.Contents(), taken, k)
  {
    stream := new LogStream();
    for i := 0 to |items|
      invariant fresh(stream.buffer) && fresh(stream.buffer.data)
      invariant stream.buffer.Valid() && stream.buffer.data.Length == SMALL_BUFFER
      invariant stream.buffer.Contents() == ImageAll(Taken(items[..i], SMALL_BUFFER))
    {
      Put(stream, items[i]);
      ghost var before := Taken(items[..i], SMALL_BUFFER);
      assert items[..i + 1][..i] == items[..i];
      assert (before + [items[i]])[..|before|] == before;
    }
    assert items[..|items|] == items;
    ghost var taken := Taken(items, SMALL_BUFFER);
    forall k: nat | k < |taken| && taken[k].Integer?
      ensures ReadsBack(stream.buffer.Contents(), taken, k)
    {
      PrintedIntegersReadBack(taken, k);
    }
  }
}
