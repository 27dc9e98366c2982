/**
  Model of software/Src/generics.c: the escape and unescape helpers, which
  rewrite a C string into a static working buffer of `_POSIX_ARG_MAX` bytes,
  and the verbosity level that filters `genericsReport`.

  A C string is modelled as a `seq<byte>`; reading past its end yields the
  terminating NUL (see `At`), so an input may also carry an embedded NUL,
  where both helpers stop, as the C code does.
*/
module Generics {

  import opened Wrappers

  /** A C `char`, as the bit pattern it holds. */
  type byte = b: int | 0 <= b < 256

  /** `_POSIX_ARG_MAX`: the size of each static working buffer. */
  const ARG_MAX: nat := 4096
  /** Both loops stop once the write offset reaches `_POSIX_ARG_MAX - 1`. */
  const LIMIT: nat := ARG_MAX - 1

  const NUL: byte := 0
  const BACKSLASH: byte := 92

  /** The `verbLevel` enumeration of generics.h, in its declared order. */
  const V_ERROR: int := 0
  const V_WARN: int := 1
  const V_INFO: int := 2
  const V_DEBUG: int := 3

  // ---------------------------------------------------------------------------
  // C strings
  // ---------------------------------------------------------------------------

  /** The byte a `char *` walking `s` reads at offset `i`: past the end it reads the terminator. */
  function At(s: seq<byte>, i: nat): byte
  {
    if i < |s| then s[i] else NUL
  }

  predicate NoNul(s: seq<byte>)
  {
    forall k | 0 <= k < |s| :: s[k] != NUL
  }

  /** The string a reader of the buffer `s` sees: its bytes up to the first NUL. */
  function CString(s: seq<byte>): (r: seq<byte>)
    ensures r <= s && NoNul(r)
    ensures |r| < |s| ==> s[|r|] == NUL
  {
    if s == [] || s[0] == NUL then [] else [s[0]] + CString(s[1..])
  }

  // ---------------------------------------------------------------------------
  // The two escape tables
  // ---------------------------------------------------------------------------

  /** The letter genericsEscape writes after a backslash for `b`, when `b` is one of the seven control bytes it escapes. */
  function EscapeLetter(b: byte): Option<byte>
  {
    if b == 7 then Some(97)          // BEL       -> \a
    else if b == 8 then Some(98)     // BACKSPACE -> \b
    else if b == 12 then Some(102)   // FORMFEED  -> \f
    else if b == 10 then Some(110)   // NL        -> \n
    else if b == 13 then Some(114)   // CR        -> \r
    else if b == 9 then Some(116)    // TAB       -> \t
    else if b == 11 then Some(118)   // VTAB      -> \v
    else None
  }

  /** The control byte genericsUnescape writes for a backslash followed by the letter `c`. */
  function ControlFor(c: byte): Option<byte>
  {
    if c == 97 then Some(7)
    else if c == 98 then Some(8)
    else if c == 102 then Some(12)
    else if c == 110 then Some(10)
    else if c == 114 then Some(13)
    else if c == 116 then Some(9)
    else if c == 118 then Some(11)
    else None
  }

  predicate IsOctal(c: byte)
  {
    48 <= c <= 55
  }

  /** The two tables are inverse, and no escape letter is NUL, a backslash or an octal digit. */
  lemma EscapeTablesInverse(b: byte, c: byte)
    ensures EscapeLetter(b) == Some(c) <==> ControlFor(c) == Some(b)
    ensures EscapeLetter(b) == Some(c) ==> c != NUL && c != BACKSLASH && !IsOctal(c)
    ensures EscapeLetter(b).Some? ==> b != NUL && b != BACKSLASH
  {
  }

  /** What genericsEscape writes for one non-NUL input byte. */
  function EscapeCode(b: byte): (e: seq<byte>)
    ensures 1 <= |e| <= 2 && (b != NUL ==> NoNul(e))
  {
    match EscapeLetter(b)
    case Some(l) => [BACKSLASH, l]
    case None => [b]
  }

  /** The full escape of `s`, with no buffer bound: each byte replaced by its code. */
  function EscapeAll(s: seq<byte>): seq<byte>
  {
    if s == [] then [] else EscapeAll(s[..|s| - 1]) + EscapeCode(s[|s| - 1])
  }

  lemma {:induction false} EscapeAllLength(s: seq<byte>)
    ensures |s| <= |EscapeAll(s)| <= 2 * |s|
  {
    if s != [] {
      EscapeAllLength(s[..|s| - 1]);
    }
  }

  /** Escaping a prefix yields a prefix of the escape. */
  lemma {:induction false} EscapeAllPrefix(s: seq<byte>, k: nat)
    requires k <= |s|
    ensures EscapeAll(s[..k]) <= EscapeAll(s)
    decreases |s|
  {
    if k < |s| {
      var t := s[..|s| - 1];
      assert s[..k] == t[..k];
      EscapeAllPrefix(t, k);
    } else {
      assert s[..k] == s;
    }
  }

  lemma EscapeAllStep(s: seq<byte>, k: nat)
    requires k < |s|
    ensures EscapeAll(s[..k + 1]) == EscapeAll(s[..k]) + EscapeCode(s[k])
  {
    assert s[..k + 1][..k] == s[..k];
  }

  // ---------------------------------------------------------------------------
  // genericsEscape
  // ---------------------------------------------------------------------------

  /**
    The do-while loop of genericsEscape AS WRITTEN, from input offset `i` with
    `out` already written: a NUL ends it; otherwise the byte's code is written,
    and the loop goes on only while the write offset is below LIMIT. The result
    is everything written before the terminator, so the terminator goes to
    index `|result|`, which can be LIMIT + 1 = ARG_MAX: one past the buffer.
  */
  function EscapeLoop(s: seq<byte>, i: nat, out: seq<byte>): (r: seq<byte>)
    requires i <= |s| && |out| < LIMIT
    ensures out <= r && |r| <= LIMIT + 1
    decreases |s| - i
  {
    if At(s, i) == NUL then out
    else
      var out' := out + EscapeCode(s[i]);
      if |out'| < LIMIT then EscapeLoop(s, i + 1, out') else out'
  }

  /** What genericsEscape writes before its terminator, as written. */
  function EscapeWritten(s: seq<byte>): (r: seq<byte>)
    ensures |r| <= ARG_MAX
  {
    EscapeLoop(s, 0, [])
  }

  /**
    The loop with the bound corrected: a two-byte escape that would leave no
    room for the terminator is not written and ends the output. Everything
    else is as in `EscapeLoop`.
  */
  function EscapeLoopFixed(s: seq<byte>, i: nat, out: seq<byte>): (r: seq<byte>)
    requires i <= |s| && |out| < LIMIT
    ensures out <= r && |r| <= LIMIT
    decreases |s| - i
  {
    if At(s, i) == NUL then out
    else
      var e := EscapeCode(s[i]);
      if |out| + |e| > LIMIT then out
      else
        var out' := out + e;
        if |out'| < LIMIT then EscapeLoopFixed(s, i + 1, out') else out'
  }

  /** What the corrected genericsEscape writes before its terminator; the terminator always lands inside the buffer. */
  function EscapeFixed(s: seq<byte>): (r: seq<byte>)
    ensures |r| < ARG_MAX
  {
    EscapeLoopFixed(s, 0, [])
  }

  /** A run of bytes that are neither NUL nor escaped is copied one for one. */
  lemma {:induction false} EscapePlainRun(s: seq<byte>, i: nat, k: nat, out: seq<byte>)
    requires i <= k <= |s| && |out| + (k - i) < LIMIT
    requires forall j | i <= j < k :: s[j] != NUL && EscapeLetter(s[j]).None?
    ensures EscapeLoop(s, i, out) == EscapeLoop(s, k, out + s[i..k])
    decreases k - i
  {
    if i == k {
      assert out + s[i..k] == out;
    } else {
      EscapePlainRun(s, i + 1, k, out + [s[i]]);
      assert (out + [s[i]]) + s[i + 1..k] == out + s[i..k];
    }
  }

  /** 4094 plain bytes followed by a newline: the escape of the newline starts at offset 4094. */
  function OverflowInput(): (s: seq<byte>)
    ensures |s| == LIMIT
  {
    seq(LIMIT - 1, _ => 65 as byte) + [10 as byte]
  }

  /** As written, genericsEscape puts the terminator of this input at index ARG_MAX, outside its buffer. */
  lemma EscapeTerminatorOverflows()
    ensures |EscapeWritten(OverflowInput())| == ARG_MAX
  {
    var s := OverflowInput();
    EscapePlainRun(s, 0, LIMIT - 1, []);
    assert s[..LIMIT - 1] == seq(LIMIT - 1, _ => 65 as byte);
  }

  /** Wherever the as-written loop keeps its terminator in bounds, the corrected loop writes the same bytes. */
  lemma {:induction false} EscapeFixedAgrees(s: seq<byte>, i: nat, out: seq<byte>)
    requires i <= |s| && |out| < LIMIT
    requires |EscapeLoop(s, i, out)| < ARG_MAX
    ensures EscapeLoopFixed(s, i, out) == EscapeLoop(s, i, out)
    decreases |s| - i
  {
    if At(s, i) != NUL {
      var out' := out + EscapeCode(s[i]);
      if |out'| < LIMIT {
        EscapeFixedAgrees(s, i + 1, out');
      }
    }
  }

  /** The corrected loop, run from offset `i` of the string `c` that `s` denotes, writes a prefix of the full escape, and all of it when it fits. */
  lemma {:induction false} EscapeFixedLoopSpec(s: seq<byte>, i: nat)
    requires i <= |CString(s)| && |EscapeAll(CString(s)[..i])| < LIMIT
    ensures EscapeLoopFixed(s, i, EscapeAll(CString(s)[..i])) <= EscapeAll(CString(s))
    ensures |EscapeAll(CString(s))| <= LIMIT ==>
              EscapeLoopFixed(s, i, EscapeAll(CString(s)[..i])) == EscapeAll(CString(s))
    ensures |EscapeAll(CString(s))| > LIMIT ==>
              |EscapeLoopFixed(s, i, EscapeAll(CString(s)[..i]))| >= LIMIT - 1
    decreases |s| - i
  {
    var c := CString(s);
    var out := EscapeAll(c[..i]);
    EscapeAllPrefix(c, i);
    if i == |c| {
      assert c[..i] == c;
      assert At(s, i) == NUL;
    } else {
      assert At(s, i) == c[i];
      EscapeAllStep(c, i);
      EscapeAllPrefix(c, i + 1);
      var e := EscapeCode(s[i]);
      if |out| + |e| <= LIMIT {
        var out' := out + e;
        assert out' == EscapeAll(c[..i + 1]);
        if |out'| < LIMIT {
          EscapeFixedLoopSpec(s, i + 1);
        }
      }
    }
  }

  /**
    The corrected genericsEscape: a prefix of the full escape of the input
    string, exactly it when it fits in LIMIT bytes, and otherwise cut short
    only by the one code that no longer fits.
  */
  lemma EscapeFixedSpec(s: seq<byte>)
    ensures EscapeFixed(s) <= EscapeAll(CString(s))
    ensures |EscapeAll(CString(s))| <= LIMIT ==> EscapeFixed(s) == EscapeAll(CString(s))
    ensures |EscapeAll(CString(s))| > LIMIT ==> |EscapeFixed(s)| >= LIMIT - 1
  {
    assert CString(s)[..0] == [];
    EscapeFixedLoopSpec(s, 0);
  }

  // ---------------------------------------------------------------------------
  // genericsUnescape
  // ---------------------------------------------------------------------------

  predicate AllOctal(ds: seq<byte>)
  {
    forall k | 0 <= k < |ds| :: IsOctal(ds[k])
  }

  /** The base-8 value of a run of octal digits, most significant first. */
  function OctalNumber(ds: seq<byte>): nat
    requires AllOctal(ds)
  {
    if ds == [] then 0 else OctalNumber(ds[..|ds| - 1]) * 8 + (ds[|ds| - 1] - 48)
  }

  /** Where the run of octal digits starting at `j` ends. */
  function OctalEnd(s: seq<byte>, j: nat): (k: nat)
    requires j <= |s|
    ensures j <= k <= |s| && !IsOctal(At(s, k)) && AllOctal(s[j..k])
    decreases |s| - j
  {
    if IsOctal(At(s, j)) then OctalEnd(s, j + 1) else j
  }

  /** One pass of the loop body: the bytes written and the offset `s` points at before the loop guard. */
  datatype Item = Item(written: seq<byte>, next: nat)

  function UnescapeItem(s: seq<byte>, i: nat): (it: Item)
    requires i <= |s|
    ensures i <= it.next <= |s| && |it.written| <= 1
  {
    if At(s, i) == BACKSLASH then
      var c := At(s, i + 1);
      if c == NUL then Item([], i + 1)
      else if ControlFor(c).Some? then Item([ControlFor(c).value], i + 1)
      else if IsOctal(c) then
        var k := OctalEnd(s, i + 1);
        Item([OctalNumber(s[i + 1..k]) % 256], k)
      else Item([c], i + 1)
    else Item([At(s, i)], i)
  }

  /**
    The do-while loop of genericsUnescape: the guard `*s++` reads, and skips,
    the byte at `it.next`; the loop ends at a NUL there or once LIMIT bytes
    are written. Each pass writes at most one byte, so the terminator always
    lands inside the buffer.
  */
  function UnescapeLoop(s: seq<byte>, i: nat, out: seq<byte>): (r: seq<byte>)
    requires i <= |s| && |out| < LIMIT
    ensures out <= r && |r| <= LIMIT
    decreases |s| - i
  {
    var it := UnescapeItem(s, i);
    var out' := out + it.written;
    if At(s, it.next) != NUL && |out'| < LIMIT then UnescapeLoop(s, it.next + 1, out') else out'
  }

  /** What genericsUnescape writes before its terminator. */
  function UnescapeWritten(s: seq<byte>): (r: seq<byte>)
    ensures |r| < ARG_MAX
  {
    UnescapeLoop(s, 0, [])
  }

  lemma {:induction false} ModShift(m: nat, y: nat)
    ensures (256 * m + y) % 256 == y % 256
  {
    if m > 0 {
      ModShift(m - 1, y);
      assert 256 * m + y == (256 * (m - 1) + y) + 256;
    }
  }

  /** Truncating each step of the octal accumulation to a `char` gives the run's value modulo 256. */
  lemma OctalStep(ds: seq<byte>, d: byte)
    requires AllOctal(ds) && IsOctal(d)
    ensures AllOctal(ds + [d])
    ensures OctalNumber(ds + [d]) % 256 == ((OctalNumber(ds) % 256) * 8 + (d - 48)) % 256
  {
    var ds' := ds + [d];
    assert ds'[..|ds'| - 1] == ds;
    var a := OctalNumber(ds);
    var q, r := a / 256, a % 256;
    assert a * 8 + (d - 48) == 256 * (8 * q) + (r * 8 + (d - 48));
    ModShift(8 * q, r * 8 + (d - 48));
  }

  /**
    A backslash and an octal run yield one byte, the run's value modulo 256,
    and the byte right after the run is consumed by the loop guard without
    being copied: the loop resumes one past it.
  */
  lemma OctalEscapeSkipsNext(s: seq<byte>, i: nat, out: seq<byte>)
    requires i + 1 < |s| && s[i] == BACKSLASH && IsOctal(s[i + 1])
    requires At(s, OctalEnd(s, i + 1)) != NUL && |out| + 1 < LIMIT
    ensures OctalEnd(s, i + 1) < |s|
    ensures UnescapeLoop(s, i, out) ==
            UnescapeLoop(s, OctalEnd(s, i + 1) + 1, out + [OctalNumber(s[i + 1..OctalEnd(s, i + 1)]) % 256])
  {
    assert ControlFor(s[i + 1]).None?;
  }

  lemma OctalRunOf101xB(s: seq<byte>)
    requires s == [92, 49, 48, 49, 120, 66]
    ensures OctalEnd(s, 1) == 4 && s[1..4] == [49, 48, 49]
  {
    assert OctalEnd(s, 4) == 4;
    assert OctalEnd(s, 3) == OctalEnd(s, 4);
    assert OctalEnd(s, 2) == OctalEnd(s, 3);
  }

  lemma OctalValue101()
    ensures OctalNumber([49, 48, 49]) == 65
  {
    assert [49, 48, 49][..2] == [49, 48];
    assert [49, 48][..1] == [49];
    assert [49 as byte][..0] == [];
  }

  /** "\101xB" unescapes to "AB": the `x` after the octal escape is lost. */
  lemma OctalEscapeExample()
    ensures CString(UnescapeWritten([92, 49, 48, 49, 120, 66])) == [65, 66]
  {
    var s: seq<byte> := [92, 49, 48, 49, 120, 66];
    OctalRunOf101xB(s);
    OctalValue101();
    OctalEscapeSkipsNext(s, 0, []);
    assert UnescapeLoop(s, 5, [65]) == [65, 66, 0];
  }

  /** A backslash followed by one of the seven letters yields its control byte, and the loop resumes after the letter. */
  lemma LetterEscape(s: seq<byte>, i: nat, out: seq<byte>)
    requires i + 1 < |s| && s[i] == BACKSLASH && ControlFor(s[i + 1]).Some? && |out| + 1 < LIMIT
    ensures UnescapeLoop(s, i, out) == UnescapeLoop(s, i + 2, out + [ControlFor(s[i + 1]).value])
  {
  }

  /** Any other byte after a backslash is written as it is, and a trailing backslash ends the output. */
  lemma OtherEscapes(s: seq<byte>, i: nat, out: seq<byte>)
    requires i < |s| && s[i] == BACKSLASH && |out| + 1 < LIMIT
    ensures i + 1 == |s| ==> UnescapeLoop(s, i, out) == out
    ensures i + 1 < |s| && s[i + 1] != NUL && ControlFor(s[i + 1]).None? && !IsOctal(s[i + 1]) ==>
              UnescapeLoop(s, i, out) == UnescapeLoop(s, i + 2, out + [s[i + 1]])
  {
  }

  // ---------------------------------------------------------------------------
  // Escape followed by unescape
  // ---------------------------------------------------------------------------

  /** Where the code of a byte other than NUL and backslash stands in a buffer, unescaping reads that byte back. */
  lemma CodeItem(e: seq<byte>, p: nat, b: byte)
    requires b != NUL && b != BACKSLASH
    requires p + |EscapeCode(b)| <= |e| && e[p..p + |EscapeCode(b)|] == EscapeCode(b)
    ensures UnescapeItem(e, p) == Item([b], p + |EscapeCode(b)| - 1)
    ensures At(e, p + |EscapeCode(b)| - 1) != NUL
  {
    match EscapeLetter(b) {
      case Some(l) =>
        EscapeTablesInverse(b, l);
        assert e[p] == BACKSLASH && e[p + 1] == l;
      case None =>
        assert e[p] == b;
    }
  }

  /** Unescaping the code of `b` writes `b` and moves past the code, unless the buffer bound is reached. */
  lemma UnescapeCode(e: seq<byte>, p: nat, out: seq<byte>, b: byte)
    requires b != NUL && b != BACKSLASH && |out| < LIMIT
    requires p + |EscapeCode(b)| <= |e| && e[p..p + |EscapeCode(b)|] == EscapeCode(b)
    ensures |out| + 1 < LIMIT ==> UnescapeLoop(e, p, out) == UnescapeLoop(e, p + |EscapeCode(b)|, out + [b])
    ensures |out| + 1 == LIMIT ==> UnescapeLoop(e, p, out) == out + [b]
  {
    CodeItem(e, p, b);
  }

  /** A string without NUL reads back as itself, with or without its terminator. */
  lemma {:induction false} CStringOfTerminated(s: seq<byte>)
    requires NoNul(s)
    ensures CString(s) == s && CString(s + [NUL]) == s
  {
    if s != [] {
      assert (s + [NUL])[1..] == s[1..] + [NUL];
      CStringOfTerminated(s[1..]);
    }
  }

  /** At the input's terminator the loop writes that NUL byte and stops. */
  lemma UnescapeAtEnd(e: seq<byte>, p: nat, out: seq<byte>)
    requires p <= |e| && At(e, p) == NUL && |out| < LIMIT
    ensures UnescapeLoop(e, p, out) == out + [NUL]
  {
    assert UnescapeItem(e, p) == Item([NUL], p);
  }

  lemma SliceSplit(e: seq<byte>, p: nat, c: seq<byte>, r: seq<byte>)
    requires p + |c| + |r| <= |e| && e[p..p + |c| + |r|] == c + r
    ensures e[p..p + |c|] == c && e[p + |c|..p + |c| + |r|] == r
  {
    assert e[p..p + |c|] == e[p..p + |c| + |r|][..|c|];
    assert e[p + |c|..p + |c| + |r|] == e[p..p + |c| + |r|][|c|..];
  }

  /** Moving the first byte of `t` to the end of `out`, and what it keeps of `t`'s properties. */
  lemma MoveFirst(out: seq<byte>, t: seq<byte>)
    requires t != [] && NoNul(t) && BACKSLASH !in t
    ensures out + t == (out + [t[0]]) + t[1..] && (out + t)[..|out| + 1] == out + [t[0]]
    ensures NoNul(t[1..]) && BACKSLASH !in t[1..]
  {
    assert t == [t[0]] + t[1..];
  }

  lemma DropBothEnds(t: seq<byte>)
    requires |t| >= 2
    ensures t[..|t| - 1][0] == t[0] && t[1..][|t| - 2] == t[|t| - 1]
    ensures t[..|t| - 1][1..] == t[1..][..|t| - 2]
  {
  }

  /** The escape of a nonempty string is the code of its first byte followed by the escape of the rest. */
  lemma {:induction false} EscapeAllFront(t: seq<byte>)
    requires t != []
    ensures EscapeAll(t) == EscapeCode(t[0]) + EscapeAll(t[1..])
    decreases |t|
  {
    if |t| == 1 {
      assert t[..0] == [] && t[1..] == [];
    } else {
      var u, v := t[..|t| - 1], t[1..];
      EscapeAllFront(u);
      DropBothEnds(t);
      assert EscapeAll(v) == EscapeAll(u[1..]) + EscapeCode(t[|t| - 1]);
    }
  }

  /** The codes of the bytes of `t`, one after another, stand at offset `p` of `e`, followed by a terminator. */
  predicate CodesAt(e: seq<byte>, p: nat, t: seq<byte>)
    decreases |t|
  {
    if t == [] then At(e, p) == NUL
    else
      var c := EscapeCode(t[0]);
      p + |c| <= |e| && e[p..p + |c|] == c && CodesAt(e, p + |c|, t[1..])
  }

  /** A terminated escape of `t` standing at offset `p` lays out the codes of `t`. */
  lemma {:induction false} EscapeAllCodesAt(e: seq<byte>, p: nat, t: seq<byte>)
    requires p + |EscapeAll(t)| <= |e| && e[p..p + |EscapeAll(t)|] == EscapeAll(t)
    requires At(e, p + |EscapeAll(t)|) == NUL
    ensures CodesAt(e, p, t)
    decreases |t|
  {
    if t != [] {
      var c, r := EscapeCode(t[0]), EscapeAll(t[1..]);
      EscapeAllFront(t);
      assert |EscapeAll(t)| == |c| + |r|;
      SliceSplit(e, p, c, r);
      EscapeAllCodesAt(e, p + |c|, t[1..]);
    }
  }

  /**
    Where the codes of `t` stand at offset `p`, unescaping writes `t` after
    `out` and then the terminator, or stops once the buffer bound is reached.
  */
  lemma {:induction false} UnescapeOfEscape(e: seq<byte>, p: nat, out: seq<byte>, t: seq<byte>)
    requires NoNul(t) && BACKSLASH !in t && |out| < LIMIT && p <= |e|
    requires CodesAt(e, p, t)
    ensures |out| + |t| < LIMIT ==> UnescapeLoop(e, p, out) == out + t + [NUL]
    ensures |out| + |t| >= LIMIT ==> UnescapeLoop(e, p, out) == (out + t)[..LIMIT]
    decreases |t|
  {
    if t == [] {
      UnescapeAtEnd(e, p, out);
    } else {
      var b, q := t[0], p + |EscapeCode(t[0])|;
      MoveFirst(out, t);
      UnescapeCode(e, p, out, b);
      if |out| + 1 < LIMIT {
        UnescapeOfEscape(e, q, out + [b], t[1..]);
        assert UnescapeLoop(e, p, out) == UnescapeLoop(e, q, out + [b]);
      } else {
        assert UnescapeLoop(e, p, out) == out + [b];
      }
    }
  }

  /** Unescaping the full escape of a string without NUL and backslash gives the string back. */
  lemma UnescapeOfEscapeAll(s: seq<byte>)
    requires NoNul(s) && BACKSLASH !in s && |EscapeAll(s)| <= LIMIT
    ensures CString(UnescapeWritten(EscapeAll(s))) == s
  {
    var e := EscapeAll(s);
    assert e[0..|e|] == e;
    EscapeAllLength(s);
    EscapeAllCodesAt(e, 0, s);
    UnescapeOfEscape(e, 0, [], s);
    CStringOfTerminated(s);
    assert [] + s == s;
    if |s| == LIMIT {
      assert s[..LIMIT] == s;
      assert UnescapeWritten(e) == s;
    } else {
      assert UnescapeWritten(e) == s + [NUL];
    }
  }

  /** For a string without backslashes whose escape fits, unescaping the escape gives the string back. */
  lemma EscapeRoundTrip(s: seq<byte>)
    requires NoNul(s) && BACKSLASH !in s && |EscapeAll(s)| <= LIMIT
    ensures CString(UnescapeWritten(EscapeFixed(s))) == s
  {
    CStringOfTerminated(s);
    EscapeFixedSpec(s);
    UnescapeOfEscapeAll(s);
  }

  /** The as-written loop, run from offset `i` of the string `c` that `s` denotes, writes the whole full escape when that fits. */
  lemma {:induction false} EscapeLoopSpec(s: seq<byte>, i: nat)
    requires i <= |CString(s)| && |EscapeAll(CString(s)[..i])| < LIMIT
    requires |EscapeAll(CString(s))| <= LIMIT
    ensures EscapeLoop(s, i, EscapeAll(CString(s)[..i])) == EscapeAll(CString(s))
    decreases |s| - i
  {
    var c := CString(s);
    if i == |c| {
      assert c[..i] == c;
      assert At(s, i) == NUL;
    } else {
      assert At(s, i) == c[i];
      EscapeAllStep(c, i);
      EscapeAllPrefix(c, i + 1);
      var out' := EscapeAll(c[..i]) + EscapeCode(s[i]);
      assert out' == EscapeAll(c[..i + 1]);
      if |out'| < LIMIT {
        EscapeLoopSpec(s, i + 1);
      } else {
        assert out' == EscapeAll(c);
      }
    }
  }

  /** genericsEscape as written writes exactly the full escape of its input string whenever that fits in LIMIT bytes. */
  lemma EscapeWrittenFits(s: seq<byte>)
    requires |EscapeAll(CString(s))| <= LIMIT
    ensures EscapeWritten(s) == EscapeAll(CString(s))
  {
    assert CString(s)[..0] == [];
    EscapeLoopSpec(s, 0);
  }

  /** The round trip for the source's own escape: for a string without backslashes whose escape fits, unescaping it gives the string back. */
  lemma EscapeWrittenRoundTrip(s: seq<byte>)
    requires NoNul(s) && BACKSLASH !in s && |EscapeAll(s)| <= LIMIT
    ensures CString(UnescapeWritten(EscapeWritten(s))) == s
  {
    CStringOfTerminated(s);
    EscapeWrittenFits(s);
    UnescapeOfEscapeAll(s);
  }

  /** The backslash itself is not escaped, so the round trip fails for a string holding one: "\\n" comes back as a newline. */
  lemma BackslashBreaksRoundTrip()
    ensures EscapeFixed([92, 110]) == [92, 110]
    ensures CString(UnescapeWritten(EscapeFixed([92, 110]))) == [10]
  {
    var s: seq<byte> := [92, 110];
    assert EscapeLoopFixed(s, 0, []) == [92, 110];
    assert UnescapeLoop(s, 0, []) == [10, 0];
  }

  /**
    The switch in the body of genericsUnescape's loop, starting at offset `i`:
    the byte it writes, if any, and the offset `s` is left at. The inner loop
    accumulates an octal run, truncating to a `char` at each digit.
  */
  method UnescapeStep(str: seq<byte>, i: nat) returns (w: Option<byte>, next: nat)
    requires i <= |str|
    ensures UnescapeItem(str, i) == Item(if w.Some? then [w.value] else [], next)
  {
    next := i;
    if At(str, next) != BACKSLASH {
      return Some(At(str, next)), next;
    }
    next := next + 1;
    var c := At(str, next);
    if c == NUL {
      w := None;
    } else if ControlFor(c).Some? {
      w := ControlFor(c);
    } else if IsOctal(c) {
      var v: byte := 0;
      while IsOctal(At(str, next))
        invariant i + 1 <= next <= |str| && AllOctal(str[i + 1..next])
        invariant v == OctalNumber(str[i + 1..next]) % 256
        invariant OctalEnd(str, next) == OctalEnd(str, i + 1)
        decreases |str| - next
      {
        OctalStep(str[i + 1..next], str[next]);
        assert str[i + 1..next] + [str[next]] == str[i + 1..next + 1];
        v := (v * 8 + (str[next] - 48)) % 256;
        next := next + 1;
      }
      w := Some(v);
    } else {
      w := Some(c);
    }
  }

  // ---------------------------------------------------------------------------
  // The static state of generics.c
  // ---------------------------------------------------------------------------

  /** The reporting level `lstore` and the two static working buffers. */
  class Context {
    var lstore: int
    const escapeBuffer: array<byte>
    const unescapeBuffer: array<byte>

    ghost predicate Valid()
      reads this
    {
      escapeBuffer.Length == ARG_MAX && unescapeBuffer.Length == ARG_MAX && escapeBuffer != unescapeBuffer
    }

    /** Program start: `lstore` is initialised to V_WARN. */
    constructor ()
      ensures Valid() && lstore == V_WARN
      ensures fresh(escapeBuffer) && fresh(unescapeBuffer)
    {
      lstore := V_WARN;
      escapeBuffer := new byte[ARG_MAX];
      unescapeBuffer := new byte[ARG_MAX];
    }

    method SetReportLevel(lset: int)
      modifies this`lstore
      ensures GetReportLevel() == lset
      ensures forall l :: Reports(l) <==> l <= lset
    {
      lstore := lset;
    }

    function GetReportLevel(): (l: int)
      reads this`lstore
      ensures l == lstore
    {
      lstore
    }

    /** genericsReport emits its message exactly when its level is at most the stored one. */
    predicate Reports(l: int)
      reads this`lstore
    {
      l <= lstore
    }

    /**
      The corrected genericsEscape, writing into the static buffer; it returns
      the terminator's offset. The loop is the C do-while: a NUL ends it, each
      other byte writes its code, and the guard stops once LIMIT bytes are out.
    */
    method Escape(str: seq<byte>) returns (n: nat)
      requires Valid()
      modifies escapeBuffer
      ensures n < ARG_MAX && escapeBuffer[..n] == EscapeFixed(str) && escapeBuffer[n] == NUL
      ensures escapeBuffer[n + 1..] == old(escapeBuffer[n + 1..])
    {
      var d, i := 0, 0;
      var more := true;
      while more
        invariant i <= |str| && d <= LIMIT
        invariant more ==> d < LIMIT && EscapeLoopFixed(str, i, escapeBuffer[..d]) == EscapeFixed(str)
        invariant !more ==> escapeBuffer[..d] == EscapeFixed(str)
        invariant escapeBuffer[d..] == old(escapeBuffer[d..])
        decreases |str| - i, more
      {
        ghost var out := escapeBuffer[..d];
        var c := At(str, i);
        if c == NUL {
          more := false;
        } else {
          match EscapeLetter(c) {
            case Some(l) =>
              if d + 2 > LIMIT {
                more := false;
              } else {
                escapeBuffer[d] := BACKSLASH;
                escapeBuffer[d + 1] := l;
                d := d + 2;
              }
            case None =>
              escapeBuffer[d] := c;
              d := d + 1;
          }
          if more {
            assert escapeBuffer[..d] == out + EscapeCode(c);
            i := i + 1;
            more := d < LIMIT;
          }
        }
      }
      escapeBuffer[d] := NUL;
      n := d;
    }

    /**
      genericsUnescape, writing into the static buffer; it returns the
      terminator's offset. Each pass writes what `UnescapeStep` decodes, then
      the guard `*s++` reads and skips one byte.
    */
    method Unescape(str: seq<byte>) returns (n: nat)
      requires Valid()
      modifies unescapeBuffer
      ensures n < ARG_MAX && unescapeBuffer[..n] == UnescapeWritten(str) && unescapeBuffer[n] == NUL
      ensures unescapeBuffer[n + 1..] == old(unescapeBuffer[n + 1..])
    {
      var d, i := 0, 0;
      var more := true;
      while more
        invariant i <= |str| && d <= LIMIT
        invariant more ==> d < LIMIT && UnescapeLoop(str, i, unescapeBuffer[..d]) == UnescapeWritten(str)
        invariant !more ==> unescapeBuffer[..d] == UnescapeWritten(str)
        invariant forall k | d <= k < unescapeBuffer.Length :: unescapeBuffer[k] == old(unescapeBuffer[k])
        decreases |str| - i, more
      {
        ghost var out := unescapeBuffer[..d];
        var w, next := UnescapeStep(str, i);
        if w.Some? {
          unescapeBuffer[d] := w.value;
          d := d + 1;
        }
        assert unescapeBuffer[..d] == out + UnescapeItem(str, i).written;
        i := next;
        if At(str, i) == NUL || d >= LIMIT {
          more := false;
        } else {
          i := i + 1;
        }
      }
      unescapeBuffer[d] := NUL;
      n := d;
    }
  }

  /** At the initial level V_WARN errors and warnings are reported, information and debug output are not. */
  lemma InitialLevelFilter(g: Context)
    requires g.lstore == V_WARN
    ensures g.Reports(V_ERROR) && g.Reports(V_WARN)
    ensures !g.Reports(V_INFO) && !g.Reports(V_DEBUG)
  {
  }
}
