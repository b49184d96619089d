/**
 * The helpers of `Utils` that the core relies on: the version comparison,
 * the colour channel extractors, the float hash the interpolator cache is
 * keyed by, and the window arithmetic of trimming a path.
 */
module Utils {
  import opened Wrappers
  import opened JavaNum

  // ---------------------------------------------------------------------
  // Versions

  /** Whether major.minor.patch is at least minMajor.minMinor.minPatch. */
  function IsAtLeastVersion(major: int, minor: int, patch: int, minMajor: int, minMinor: int, minPatch: int): bool
  {
    if major < minMajor then false
    else if major > minMajor then true
    else if minor < minMinor then false
    else if minor > minMinor then true
    else patch >= minPatch
  }

  /** Lexicographic "at least" on versions of equal length, most significant part first. */
  predicate LexAtLeast(v: seq<int>, w: seq<int>)
    requires |v| == |w|
  {
    v == [] || v[0] > w[0] || (v[0] == w[0] && LexAtLeast(v[1..], w[1..]))
  }

  /** The version check is the lexicographic order on (major, minor, patch). */
  lemma IsAtLeastVersionIsLex(major: int, minor: int, patch: int, minMajor: int, minMinor: int, minPatch: int)
    ensures IsAtLeastVersion(major, minor, patch, minMajor, minMinor, minPatch)
            <==> LexAtLeast([major, minor, patch], [minMajor, minMinor, minPatch])
  {
    var v, w := [major, minor, patch], [minMajor, minMinor, minPatch];
    assert v[1..] == [minor, patch] && w[1..] == [minMinor, minPatch];
    assert v[1..][1..] == [patch] && w[1..][1..] == [minPatch];
    assert LexAtLeast([patch], [minPatch]) <==> patch >= minPatch by {
      assert [patch][1..] == [] && [minPatch][1..] == [];
    }
  }

  /** Of two versions, one is always at least the other. */
  lemma VersionsComparable(major: int, minor: int, patch: int, minMajor: int, minMinor: int, minPatch: int)
    ensures IsAtLeastVersion(major, minor, patch, minMajor, minMinor, minPatch)
            || IsAtLeastVersion(minMajor, minMinor, minPatch, major, minor, patch)
    ensures IsAtLeastVersion(major, minor, patch, minMajor, minMinor, minPatch)
            && IsAtLeastVersion(minMajor, minMinor, minPatch, major, minor, patch)
            ==> major == minMajor && minor == minMinor && patch == minPatch
  {
  }

  // ---------------------------------------------------------------------
  // Colour channels of an ARGB int

  /**
   * `color >>> 24`: the top byte, reading the int's bits as unsigned. The
   * signed shifts below are floor divisions, and `& 0xFF` is the
   * non-negative remainder modulo 256.
   */
  function Alpha(color: int): (r: int)
    ensures 0 <= r <= 255
  {
    (color % 0x1_0000_0000) / 0x100_0000
  }

  /** `(color >> 16) & 0xFF`. */
  function Red(color: int): (r: int)
    ensures 0 <= r <= 255
  {
    (color / 0x1_0000) % 0x100
  }

  /** `(color >> 8) & 0xFF`. */
  function Green(color: int): (r: int)
    ensures 0 <= r <= 255
  {
    (color / 0x100) % 0x100
  }

  /** `color & 0xFF`. */
  function Blue(color: int): (r: int)
    ensures 0 <= r <= 255
  {
    color % 0x100
  }

  /** The int whose four bytes are a, r, g and b, most significant first. */
  function Argb(a: int, r: int, g: int, b: int): int
  {
    Wrap32(a * 0x100_0000 + r * 0x1_0000 + g * 0x100 + b)
  }

  /** Splitting a colour into its four channels and packing them again gives the colour back. */
  lemma ChannelsRebuildColor(color: int)
    requires IsInt32(color)
    ensures Argb(Alpha(color), Red(color), Green(color), Blue(color)) == color
  {
    var u := color % 0x1_0000_0000;
    HighBitsShift(color / 0x1_0000_0000, u);
    Bytes(u);
    Rebuild(color, u, Alpha(color), Red(color), Green(color), Blue(color));
  }

  /** Shifting right by 8 or 16 bits and keeping the low byte ignores whole multiples of 2^32. */
  lemma HighBitsShift(k: int, u: int)
    requires 0 <= u < 0x1_0000_0000
    ensures ((k * 0x1_0000_0000 + u) / 0x1_0000) % 0x100 == (u / 0x1_0000) % 0x100
    ensures ((k * 0x1_0000_0000 + u) / 0x100) % 0x100 == (u / 0x100) % 0x100
    ensures (k * 0x1_0000_0000 + u) % 0x100 == u % 0x100
  {
    WholeDiv(k * 0x1_0000, u, 0x1_0000);
    WholeMod(k * 0x100, u / 0x1_0000);
    WholeDiv(k * 0x100_0000, u, 0x100);
    WholeMod(k * 0x1_0000, u / 0x100);
    WholeMod(k * 0x100_0000, u);
  }

  /** Dividing by d passes over a whole multiple of d. */
  lemma WholeDiv(m: int, x: int, d: int)
    requires d == 0x100 || d == 0x1_0000
    ensures (m * d + x) / d == m + x / d
  {
    var q, r := x / d, x % d;
    assert m * d + x == (m + q) * d + r;
  }

  /** The low byte ignores whole multiples of 256. */
  lemma WholeMod(m: int, x: int)
    ensures (m * 0x100 + x) % 0x100 == x % 0x100
  {
  }

  lemma Rebuild(color: int, u: int, a: int, r: int, g: int, b: int)
    requires IsInt32(color) && u == color % 0x1_0000_0000
    requires u == a * 0x100_0000 + r * 0x1_0000 + g * 0x100 + b
    ensures Wrap32(a * 0x100_0000 + r * 0x1_0000 + g * 0x100 + b) == color
  {
  }

  /** An unsigned 32-bit value is the sum of its four bytes, each at its place. */
  lemma Bytes(u: int)
    requires 0 <= u < 0x1_0000_0000
    ensures u == (u / 0x100_0000) * 0x100_0000 + ((u / 0x1_0000) % 0x100) * 0x1_0000 + ((u / 0x100) % 0x100) * 0x100 + u % 0x100
  {
    var q8 := u / 0x100;
    var q16 := q8 / 0x100;
    var q24 := q16 / 0x100;
    assert u == q8 * 0x100 + u % 0x100;
    assert q8 == q16 * 0x100 + q8 % 0x100;
    assert q16 == q24 * 0x100 + q16 % 0x100;
    assert q16 == u / 0x1_0000;
    assert q24 == u / 0x100_0000;
  }

  /** Packing four bytes and reading the channels back gives the bytes. */
  lemma ArgbChannels(a: int, r: int, g: int, b: int)
    requires 0 <= a <= 255 && 0 <= r <= 255 && 0 <= g <= 255 && 0 <= b <= 255
    ensures Alpha(Argb(a, r, g, b)) == a && Red(Argb(a, r, g, b)) == r
    ensures Green(Argb(a, r, g, b)) == g && Blue(Argb(a, r, g, b)) == b
  {
    var u := a * 0x100_0000 + r * 0x1_0000 + g * 0x100 + b;
    var c := Argb(a, r, g, b);
    var k := if u <= INT_MAX then 0 else -1;
    assert c == k * 0x1_0000_0000 + u;
    assert c % 0x1_0000_0000 == u;
    HighBitsShift(k, u);
    UnsignedChannels(a, r, g, b);
  }

  /** The channels of the unsigned value packed from four bytes. */
  lemma UnsignedChannels(a: int, r: int, g: int, b: int)
    requires 0 <= a <= 255 && 0 <= r <= 255 && 0 <= g <= 255 && 0 <= b <= 255
    ensures var u := a * 0x100_0000 + r * 0x1_0000 + g * 0x100 + b;
      && u / 0x100_0000 == a && (u / 0x1_0000) % 0x100 == r && (u / 0x100) % 0x100 == g && u % 0x100 == b
  {
    var u := a * 0x100_0000 + r * 0x1_0000 + g * 0x100 + b;
    HighByte(a, r * 0x1_0000 + g * 0x100 + b, u);
    ByteAt(a, r, g * 0x100 + b, 0x1_0000, u);
    ByteAt(a * 0x100 + r, g, b, 0x100, u);
    ByteAt(a * 0x1_0000 + r * 0x100 + g, b, 0, 1, u);
  }

  /** The top byte of a value below 2^32. */
  lemma HighByte(a: int, x: int, u: int)
    requires 0 <= x < 0x100_0000 && u == a * 0x100_0000 + x
    ensures u / 0x100_0000 == a
  {
  }

  /** The byte just above the d-sized low part. */
  lemma ByteAt(h: int, byte: int, x: int, d: int, u: int)
    requires d == 1 || d == 0x100 || d == 0x1_0000
    requires 0 <= byte < 0x100 && 0 <= x < d
    requires u == (h * 0x100 + byte) * d + x
    ensures (u / d) % 0x100 == byte
  {
    if d != 1 {
      WholeDiv(h * 0x100 + byte, x, d);
    }
    WholeMod(h, byte);
  }

  // ---------------------------------------------------------------------
  // hashFor

  /** One step of `hashFor`: 31 times the running int, wrapping, times the float, cast back to int. */
  function Mix(result: int, v: real): (r: int)
    ensures IsInt32(r)
  {
    ToInt(Times(Wrap32(31 * result), v))
  }

  /** An int times a float, as a float. */
  function Times(n: int, v: real): real
  {
    n as real * v
  }

  /** The hash of the values from the seed 17, where a zero value leaves the running hash alone. */
  function HashOf(vals: seq<real>): (r: int)
    ensures IsInt32(r)
  {
    if vals == [] then 17
    else
      var h := HashOf(vals[..|vals| - 1]);
      if vals[|vals| - 1] != 0.0 then Mix(h, vals[|vals| - 1]) else h
  }

  /** The non-zero values, in order. */
  function NonZero(vals: seq<real>): (r: seq<real>)
    ensures |r| <= |vals|
    ensures forall i :: 0 <= i < |r| ==> r[i] != 0.0
  {
    if vals == [] then []
    else NonZero(vals[..|vals| - 1]) + (if vals[|vals| - 1] != 0.0 then [vals[|vals| - 1]] else [])
  }

  /** Zeros are skipped: the hash is that of the non-zero values alone. */
  lemma {:induction false} HashSkipsZeros(vals: seq<real>)
    ensures HashOf(vals) == HashOf(NonZero(vals))
  {
    if vals != [] {
      var init, x := vals[..|vals| - 1], vals[|vals| - 1];
      HashSkipsZeros(init);
      if x != 0.0 {
        var nz := NonZero(init) + [x];
        assert nz[..|nz| - 1] == NonZero(init);
        assert HashOf(nz) == Mix(HashOf(NonZero(init)), x);
        assert HashOf(vals) == Mix(HashOf(init), x);
      } else {
        assert NonZero(vals) == NonZero(init);
      }
    }
  }

  /** Only zeros: the hash is the seed. */
  lemma {:induction false} ZeroHash(vals: seq<real>)
    requires forall i :: 0 <= i < |vals| ==> vals[i] == 0.0
    ensures HashOf(vals) == 17
  {
    if vals != [] {
      ZeroHash(vals[..|vals| - 1]);
    }
  }

  /** `hashFor(a, b, c, d)`. */
  method HashFor(a: real, b: real, c: real, d: real) returns (result: int)
    ensures result == HashOf([a, b, c, d])
  {
    result := 17;
    assert [a][..0] == [];
    if a != 0.0 {
      result := ToInt(Times(Wrap32(31 * result), a));
    }
    assert result == HashOf([a]);
    assert [a, b][..1] == [a];
    if b != 0.0 {
      result := ToInt(Times(Wrap32(31 * result), b));
    }
    assert result == HashOf([a, b]);
    assert [a, b, c][..2] == [a, b];
    if c != 0.0 {
      result := ToInt(Times(Wrap32(31 * result), c));
    }
    assert result == HashOf([a, b, c]);
    assert [a, b, c, d][..3] == [a, b, c];
    if d != 0.0 {
      result := ToInt(Times(Wrap32(31 * result), d));
    }
  }

  // ---------------------------------------------------------------------
  // Trim windows

  /** A piece of a path, from one distance along it to another. */
  datatype Segment = Segment(from: real, to: real)

  /**
   * What trimming does to a path: leaves it as it is, empties it, or keeps
   * the window [start, end] and, when the window wraps past either end of
   * the path, the rest of it measured from the other end.
   */
  datatype Trim =
    | Untouched
    | Emptied
    | Window(start: real, end: real, rest: Option<Segment>)

  /** The trim values a trim path content reports: start and end in percent, offset in degrees. */
  datatype TrimValues = TrimValues(hidden: bool, start: real, end: real, offset: real)

  /** The cases the trim leaves the path alone: the window [1, 0], a path shorter than 1, or a window of about the whole path. */
  predicate LeavesPathAlone(length: real, startValue: real, endValue: real)
  {
    (startValue == 1.0 && endValue == 0.0) || length < 1.0 || Abs(endValue - startValue - 1.0) < 0.01
  }

  /** Both window ends, ordered, shifted by the offset and brought back onto the path when they run off it. */
  function Normalised(length: real, start: real, end: real, offset: real): (real, real)
    requires 1.0 <= length
  {
    var s0 := Min(start, end) + offset;
    var e0 := Max(start, end) + offset;
    var s1 := if s0 >= length && e0 >= length then FloorMod(s0, length) else s0;
    var e1 := if s0 >= length && e0 >= length then FloorMod(e0, length) else e0;
    var s2 := if s1 < 0.0 then FloorMod(s1, length) else s1;
    var e2 := if e1 < 0.0 then FloorMod(e1, length) else e1;
    (s2, e2)
  }

  /** The trim of a path of the given length by the window [startValue, endValue] of its length, rotated by offsetValue turns. */
  function TrimOf(length: real, startValue: real, endValue: real, offsetValue: real): Trim
  {
    if LeavesPathAlone(length, startValue, endValue) then Untouched
    else
      var (s, e) := Normalised(length, length * startValue, length * endValue, offsetValue * length);
      if s == e then Emptied
      else
        var s' := if s >= e then s - length else s;
        var rest :=
          if e > length then Some(Segment(0.0, FloorMod(e, length)))
          else if s' < 0.0 then Some(Segment(length + s', length))
          else None;
        Window(s', e, rest)
  }

  /** x minus the floor remainder is a whole multiple of y. */
  lemma FloorModShift(x: real, y: real)
    requires y != 0.0
    ensures x - FloorMod(x, y) == (x / y).Floor as real * y
  {
    assert y * (x / y) == x;
    assert FloorMod(x, y) == y * (x / y) - y * (x / y).Floor as real;
  }

  /**
   * The normalised ends lie on the path, the end possibly beyond it, and
   * differ from the ordered, shifted ones by whole path lengths.
   */
  lemma NormalisedOnPath(length: real, start: real, end: real, offset: real)
    requires 1.0 <= length
    ensures var (s, e) := Normalised(length, start, end, offset);
      && 0.0 <= s < length && 0.0 <= e
      && IsIntegral((Min(start, end) + offset - s) / length)
      && IsIntegral((Max(start, end) + offset - e) / length)
  {
    var s0 := Min(start, end) + offset;
    var e0 := Max(start, end) + offset;
    var both := s0 >= length && e0 >= length;
    var s1 := if both then FloorMod(s0, length) else s0;
    var e1 := if both then FloorMod(e0, length) else e0;
    FloorModBounds(s0, length);
    FloorModBounds(e0, length);
    FloorModBounds(s1, length);
    FloorModBounds(e1, length);
    ReducedBy(s0, s1, both, length);
    ReducedBy(e0, e1, both, length);
    var s2 := if s1 < 0.0 then FloorMod(s1, length) else s1;
    var e2 := if e1 < 0.0 then FloorMod(e1, length) else e1;
    ReducedBy(s1, s2, s1 < 0.0, length);
    ReducedBy(e1, e2, e1 < 0.0, length);
    AddIntegral(s0 - s1, s1 - s2, length);
    AddIntegral(e0 - e1, e1 - e2, length);
    assert s0 - s1 + (s1 - s2) == s0 - s2;
    assert e0 - e1 + (e1 - e2) == e0 - e2;
  }

  /** Reducing x, or leaving it, moves it by whole multiples of y. */
  lemma ReducedBy(x: real, x': real, reduce: bool, y: real)
    requires y != 0.0 && x' == if reduce then FloorMod(x, y) else x
    ensures IsIntegral((x - x') / y)
  {
    if reduce {
      FloorModShift(x, y);
      WholeMultiple(x - x', (x / y).Floor, y);
    } else {
      assert (x - x') / y == 0.0;
    }
  }

  lemma AddWhole(x: real, d: real)
    requires d != 0.0 && IsIntegral(x / d)
    ensures IsIntegral((x + d) / d)
  {
    assert d / d == 1.0;
    AddIntegral(x, d, d);
  }

  lemma ShiftedWidth(ts: real, te: real, s: real, e: real, w: real, d: real, length: real)
    requires ts == s - length && te == e && e - s - w == d
    ensures te - ts - w == d + length
  {
  }

  lemma WholeMultiple(x: real, k: int, y: real)
    requires y != 0.0 && x == k as real * y
    ensures IsIntegral(x / y)
  {
    assert x / y == k as real;
  }

  lemma AddIntegral(x: real, y: real, d: real)
    requires d != 0.0 && IsIntegral(x / d) && IsIntegral(y / d)
    ensures IsIntegral((x + y) / d)
  {
    assert (x + y) / d == x / d + y / d;
    var a, b := (x / d).Floor, (y / d).Floor;
    assert (x + y) / d == (a + b) as real;
  }

  lemma SubIntegral(x: real, y: real, d: real)
    requires d != 0.0 && IsIntegral(x / d) && IsIntegral(y / d)
    ensures IsIntegral((x - y) / d)
  {
    assert (x - y) / d == x / d - y / d;
    var a, b := (x / d).Floor, (y / d).Floor;
    assert (x - y) / d == (a - b) as real;
  }

  /** The path is left alone exactly in the three cases of `LeavesPathAlone`. */
  lemma TrimUntouchedIff(length: real, startValue: real, endValue: real, offsetValue: real)
    ensures TrimOf(length, startValue, endValue, offsetValue) == Untouched
            <==> LeavesPathAlone(length, startValue, endValue)
  {
  }

  /** A window of zero width on a long enough path empties it. */
  lemma {:induction false} TrimEqualEndsEmpties(length: real, value: real, offsetValue: real)
    requires 1.0 <= length
    ensures TrimOf(length, value, value, offsetValue) == Emptied
  {
    assert !LeavesPathAlone(length, value, value) by {
      assert Abs(value - value - 1.0) == 1.0;
    }
  }

  /**
   * A kept window starts on the path, ends after it starts, and when it
   * runs past either end of the path the rest is taken from the other end:
   * from 0 when the end runs past the length, up to the length when the
   * start runs below 0; both never happen at once.
   */
  lemma {:induction false} TrimWindowOnPath(length: real, startValue: real, endValue: real, offsetValue: real)
    requires TrimOf(length, startValue, endValue, offsetValue).Window?
    ensures var t := TrimOf(length, startValue, endValue, offsetValue);
      && -length <= t.start < t.end && t.start < length && 0.0 <= t.end
      && (t.start < 0.0 ==> t.end < length && t.rest == Some(Segment(length + t.start, length)))
      && (length < t.end ==> 0.0 <= t.start && t.rest == Some(Segment(0.0, FloorMod(t.end, length))))
      && (0.0 <= t.start && t.end <= length ==> t.rest.None?)
  {
    NormalisedOnPath(length, length * startValue, length * endValue, offsetValue * length);
  }

  /**
   * A kept window is the requested one turned around the path: its width
   * differs from |end - start| of the length by whole path lengths.
   */
  lemma {:induction false} TrimWindowWidth(length: real, startValue: real, endValue: real, offsetValue: real)
    requires TrimOf(length, startValue, endValue, offsetValue).Window?
    ensures var t := TrimOf(length, startValue, endValue, offsetValue);
      IsIntegral((t.end - t.start - Abs(length * endValue - length * startValue)) / length)
  {
    var start, end, offset := length * startValue, length * endValue, offsetValue * length;
    var (s, e) := Normalised(length, start, end, offset);
    NormalisedOnPath(length, start, end, offset);
    var t := TrimOf(length, startValue, endValue, offsetValue);
    var w := Abs(end - start);
    assert w == Max(start, end) - Min(start, end);
    var a, b := Max(start, end) + offset - e, Min(start, end) + offset - s;
    SubIntegral(b, a, length);
    assert e - s - w == b - a;
    if s >= e {
      assert t.start == s - length && t.end == e;
      AddWhole(b - a, length);
      ShiftedWidth(t.start, t.end, s, e, w, b - a, length);
    } else {
      assert t.start == s && t.end == e;
    }
  }

  /** The `(path, start, end, offset)` overload: the window arithmetic of `TrimOf`, one step at a time. */
  method TrimWindow(length: real, startValue: real, endValue: real, offsetValue: real) returns (t: Trim)
    ensures t == TrimOf(length, startValue, endValue, offsetValue)
  {
    if startValue == 1.0 && endValue == 0.0 {
      return Untouched;
    }
    if length < 1.0 || Abs(endValue - startValue - 1.0) < 0.01 {
      return Untouched;
    }
    var start := length * startValue;
    var end := length * endValue;
    var newStart := Min(start, end);
    var newEnd := Max(start, end);
    var offset := offsetValue * length;
    newStart := newStart + offset;
    newEnd := newEnd + offset;
    if newStart >= length && newEnd >= length {
      newStart := FloorMod(newStart, length);
      newEnd := FloorMod(newEnd, length);
    }
    if newStart < 0.0 {
      newStart := FloorMod(newStart, length);
    }
    if newEnd < 0.0 {
      newEnd := FloorMod(newEnd, length);
    }
    assert (newStart, newEnd) == Normalised(length, start, end, offset);
    if newStart == newEnd {
      return Emptied;
    }
    if newStart >= newEnd {
      newStart := newStart - length;
    }
    var rest := None;
    if newEnd > length {
      rest := Some(Segment(0.0, FloorMod(newEnd, length)));
    } else if newStart < 0.0 {
      rest := Some(Segment(length + newStart, length));
    }
    t := Window(newStart, newEnd, rest);
  }

  /**
   * The `(path, trimPath)` overload: nothing for a missing or hidden trim;
   * otherwise the window from start and end percentages and an offset in
   * degrees.
   */
  method ApplyTrimPathIfNeeded(length: real, trim: Option<TrimValues>) returns (t: Trim)
    ensures trim.None? || trim.value.hidden ==> t == Untouched
    ensures trim.Some? && !trim.value.hidden ==>
      t == TrimOf(length, trim.value.start / 100.0, trim.value.end / 100.0, trim.value.offset / 360.0)
  {
    if trim.None? || trim.value.hidden {
      return Untouched;
    }
    t := TrimWindow(length, trim.value.start / 100.0, trim.value.end / 100.0, trim.value.offset / 360.0);
  }

  /** A visible trim from 0 % to 100 % keeps the whole path; equal percentages on a path of length 1 or more empty it. */
  lemma TrimPercentages(length: real, trim: TrimValues)
    requires !trim.hidden
    ensures trim.start == 0.0 && trim.end == 100.0 ==>
      TrimOf(length, trim.start / 100.0, trim.end / 100.0, trim.offset / 360.0) == Untouched
    ensures trim.start == trim.end && 1.0 <= length ==>
      TrimOf(length, trim.start / 100.0, trim.end / 100.0, trim.offset / 360.0) == Emptied
  {
    if trim.start == trim.end && 1.0 <= length {
      TrimEqualEndsEmpties(length, trim.start / 100.0, trim.offset / 360.0);
    }
  }
}
