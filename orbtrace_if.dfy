/**
  Model of software/Src/orbtraceIf.c and software/Inc/orbtraceIf.h: the
  session context of the Orbtrace host library, the scan that collects the
  whitelisted USB devices matching an optional partial serial number, the
  NULL-aware ordering used to sort them, and the inline accessors.

  libusb is an abstract input: one `RawDevice` per entry of the list that
  `libusb_get_device_list` returns, holding its device descriptor, whether
  `libusb_open` succeeds, and the text of its string descriptors. A string
  stands for the contents of a C string, and a `char *` that may be NULL is an
  `Option<string>`. The model does not require descriptor texts to be free of
  NUL, nor the initial contents of `tfrString` to fit in its buffer.
*/
module OrbtraceInterface {

  import opened Wrappers

  /** MAX_USB_DESC_LEN: the size of the buffer string descriptors are read into. */
  const MAX_USB_DESC_LEN: nat := 256

  // ---------------------------------------------------------------------------
  // The whitelist
  // ---------------------------------------------------------------------------

  datatype VidPid = VidPid(vid: int, pid: int)

  /** `_validDevices`: the two supported VID/PID pairs, then the `{0, 0}` sentinel. */
  const VALID_DEVICES: seq<VidPid> := [VidPid(0x1209, 0x3443), VidPid(0x046d, 0x0892), VidPid(0, 0)]

  /** A pair is supported when it is one of the entries before the sentinel. */
  predicate IsKnown(vid: int, pid: int)
  {
    VidPid(vid, pid) in VALID_DEVICES[..|VALID_DEVICES| - 1]
  }

  /**
    The lookup loop of OrbtraceIfGetDeviceList: it stops at the sentinel or at
    the first entry equal to the pair, and the device is supported exactly when
    it did not stop at the sentinel.
  */
  method FindValidDevice(vid: int, pid: int) returns (y: nat)
    ensures y < |VALID_DEVICES|
    ensures VALID_DEVICES[y].vid != 0 <==> IsKnown(vid, pid)
    ensures VALID_DEVICES[y].vid != 0 ==> VALID_DEVICES[y] == VidPid(vid, pid)
  {
    y := 0;
    while VALID_DEVICES[y].vid != 0 && VALID_DEVICES[y] != VidPid(vid, pid)
      invariant y < |VALID_DEVICES|
      invariant forall k | 0 <= k < y :: VALID_DEVICES[k] != VidPid(vid, pid)
      decreases |VALID_DEVICES| - y
    {
      y := y + 1;
    }
  }

  /** Exactly the two listed pairs are supported; the sentinel pair, and any pair with vendor 0, is not. */
  lemma WhitelistExact(vid: int, pid: int)
    ensures IsKnown(vid, pid) <==> (vid == 0x1209 && pid == 0x3443) || (vid == 0x046d && pid == 0x0892)
    ensures vid == 0 ==> !IsKnown(vid, pid)
  {
    assert VALID_DEVICES[..|VALID_DEVICES| - 1] == [VidPid(0x1209, 0x3443), VidPid(0x046d, 0x0892)];
  }

  // ---------------------------------------------------------------------------
  // strcmp, _strcmpint and _compareFunc
  // ---------------------------------------------------------------------------

  /** `strcmp`, reduced to the sign of its result: bytes compare in order, and a proper prefix comes first. */
  function StrCmp(a: string, b: string): (r: int)
    ensures -1 <= r <= 1
    ensures r == 0 <==> a == b
  {
    if a == [] then (if b == [] then 0 else -1)
    else if b == [] then 1
    else if a[0] < b[0] then -1
    else if a[0] > b[0] then 1
    else
      assert a == [a[0]] + a[1..] && b == [b[0]] + b[1..];
      StrCmp(a[1..], b[1..])
  }

  /** `a` comes strictly before `b` in dictionary order. */
  ghost predicate LexLess(a: string, b: string)
  {
    a < b || exists k | 0 <= k < |a| && k < |b| :: a[..k] == b[..k] && a[k] < b[k]
  }

  lemma {:induction false} StrCmpAntisymmetric(a: string, b: string)
    ensures StrCmp(a, b) == -StrCmp(b, a)
  {
    if a != [] && b != [] && a[0] == b[0] {
      StrCmpAntisymmetric(a[1..], b[1..]);
    }
  }

  lemma {:induction false} StrCmpTransitive(a: string, b: string, c: string)
    requires StrCmp(a, b) <= 0 && StrCmp(b, c) <= 0
    ensures StrCmp(a, c) <= 0
  {
    if a != [] && b != [] && c != [] && a[0] == b[0] && b[0] == c[0] {
      StrCmpTransitive(a[1..], b[1..], c[1..]);
    }
  }

  /** Strings with different first bytes are ordered by those bytes. */
  lemma LexLessHeads(a: string, b: string)
    requires a != [] && b != [] && a[0] != b[0]
    ensures LexLess(a, b) <==> a[0] < b[0]
  {
    assert a[..0] == b[..0];
    if LexLess(a, b) && !(a < b) {
      var k :| 0 <= k < |a| && k < |b| && a[..k] == b[..k] && a[k] < b[k];
      assert k == 0;
    }
  }

  /** Strings with the same first byte are ordered by the rest. */
  lemma LexLessTails(a: string, b: string)
    requires a != [] && b != [] && a[0] == b[0]
    ensures LexLess(a, b) <==> LexLess(a[1..], b[1..])
  {
    var a', b' := a[1..], b[1..];
    assert a == [a[0]] + a' && b == [b[0]] + b';
    if LexLess(a', b') && !(a' < b') {
      var k :| 0 <= k < |a'| && k < |b'| && a'[..k] == b'[..k] && a'[k] < b'[k];
      assert a[..k + 1] == [a[0]] + a'[..k] && b[..k + 1] == [b[0]] + b'[..k];
      assert a[k + 1] == a'[k] && b[k + 1] == b'[k];
    }
    if LexLess(a, b) && !(a < b) {
      var k :| 0 <= k < |a| && k < |b| && a[..k] == b[..k] && a[k] < b[k];
      assert k > 0;
      assert a'[..k - 1] == a[..k][1..] && b'[..k - 1] == b[..k][1..];
      assert a'[k - 1] == a[k] && b'[k - 1] == b[k];
    }
  }

  /** A negative `strcmp` means dictionary order. */
  lemma {:induction false} StrCmpLexicographic(a: string, b: string)
    ensures StrCmp(a, b) < 0 <==> LexLess(a, b)
  {
    if a == [] || b == [] {
      if b == [] {
        assert !LexLess(a, b);
      }
    } else if a[0] != b[0] {
      LexLessHeads(a, b);
    } else {
      LexLessTails(a, b);
      StrCmpLexicographic(a[1..], b[1..]);
    }
  }

  /**
    `_strcmpint` AS WRITTEN: a present string before an absent one, `strcmp`
    when both are present, and, when both are NULL, `strcmp(NULL, NULL)`,
    whose result is undefined: `None`.
  */
  function StrCmpIntAsWritten(s1: Option<string>, s2: Option<string>): (r: Option<int>)
    ensures r.None? <==> s1.None? && s2.None?
    ensures s1.Some? && s2.None? ==> r == Some(-1)
    ensures s1.None? && s2.Some? ==> r == Some(1)
  {
    if s1.Some? && s2.None? then Some(-1)
    else if s1.None? && s2.Some? then Some(1)
    else if s1.None? then None
    else Some(StrCmp(s1.value, s2.value))
  }

  /** The corrected `_strcmpint`: two NULL strings compare equal. */
  function StrCmpInt(s1: Option<string>, s2: Option<string>): (r: int)
    ensures -1 <= r <= 1
    ensures r == 0 <==> s1 == s2
    ensures s1.Some? && s2.None? ==> r < 0
  {
    if s1.Some? && s2.None? then -1
    else if s1.None? && s2.Some? then 1
    else if s1.None? then 0
    else StrCmp(s1.value, s2.value)
  }

  /** Wherever `_strcmpint` is defined, the corrected version gives the same result. */
  lemma StrCmpIntAgrees(s1: Option<string>, s2: Option<string>)
    ensures StrCmpIntAsWritten(s1, s2).Some? ==> StrCmpIntAsWritten(s1, s2).value == StrCmpInt(s1, s2)
    ensures StrCmpIntAsWritten(s1, s2).None? ==> StrCmpInt(s1, s2) == 0
  {
  }

  lemma StrCmpIntAntisymmetric(s1: Option<string>, s2: Option<string>)
    ensures StrCmpInt(s1, s2) == -StrCmpInt(s2, s1)
  {
    if s1.Some? && s2.Some? {
      StrCmpAntisymmetric(s1.value, s2.value);
    }
  }

  lemma StrCmpIntTransitive(s1: Option<string>, s2: Option<string>, s3: Option<string>)
    requires StrCmpInt(s1, s2) <= 0 && StrCmpInt(s2, s3) <= 0
    ensures StrCmpInt(s1, s3) <= 0
  {
    if s1.Some? && s2.Some? && s3.Some? {
      StrCmpTransitive(s1.value, s2.value, s3.value);
    }
  }

  // ---------------------------------------------------------------------------
  // Device records
  // ---------------------------------------------------------------------------

  /**
    `struct OrbtraceIfDevice`. `sn` is always set by the scan, so it is never
    NULL; the `type` pointer is never assigned and is not modelled.
  */
  datatype Device = Device(sn: string, manufacturer: Option<string>, product: Option<string>,
                           vid: int, pid: int, devIndex: nat)

  /** The fields `_compareFunc` orders by. */
  predicate SameKey(d1: Device, d2: Device)
  {
    d1.manufacturer == d2.manufacturer && d1.product == d2.product && d1.sn == d2.sn &&
    d1.vid == d2.vid && d1.pid == d2.pid
  }

  /**
    `_compareFunc` AS WRITTEN: manufacturer, then product, with `_strcmpint`,
    then serial with `strcmp`, then the vid and pid differences. `None` when it
    reaches `strcmp(NULL, NULL)`.
  */
  function CompareAsWritten(d1: Device, d2: Device): (r: Option<int>)
    ensures r.None? <==> (d1.manufacturer.None? && d2.manufacturer.None?) ||
                         (d1.manufacturer == d2.manufacturer && d1.product.None? && d2.product.None?)
  {
    match StrCmpIntAsWritten(d1.manufacturer, d2.manufacturer)
    case None => None
    case Some(r) =>
      if r != 0 then Some(r)
      else
        match StrCmpIntAsWritten(d1.product, d2.product)
        case None => None
        case Some(r) =>
          if r != 0 then Some(r)
          else if StrCmp(d1.sn, d2.sn) != 0 then Some(StrCmp(d1.sn, d2.sn))
          else if d1.vid - d2.vid != 0 then Some(d1.vid - d2.vid)
          else Some(d1.pid - d2.pid)
  }

  /** The corrected `_compareFunc`, built on the corrected `_strcmpint`. */
  function Compare(d1: Device, d2: Device): (r: int)
    ensures r == 0 <==> SameKey(d1, d2)
  {
    var m := StrCmpInt(d1.manufacturer, d2.manufacturer);
    if m != 0 then m
    else
      var p := StrCmpInt(d1.product, d2.product);
      if p != 0 then p
      else if StrCmp(d1.sn, d2.sn) != 0 then StrCmp(d1.sn, d2.sn)
      else if d1.vid - d2.vid != 0 then d1.vid - d2.vid
      else d1.pid - d2.pid
  }

  /** Where `_compareFunc` is defined, the corrected comparison agrees with it. */
  lemma CompareAgrees(d1: Device, d2: Device)
    requires CompareAsWritten(d1, d2).Some?
    ensures CompareAsWritten(d1, d2).value == Compare(d1, d2)
  {
    StrCmpIntAgrees(d1.manufacturer, d2.manufacturer);
    StrCmpIntAgrees(d1.product, d2.product);
  }

  lemma CompareAntisymmetric(d1: Device, d2: Device)
    ensures Compare(d1, d2) == -Compare(d2, d1)
  {
    StrCmpIntAntisymmetric(d1.manufacturer, d2.manufacturer);
    StrCmpIntAntisymmetric(d1.product, d2.product);
    StrCmpAntisymmetric(d1.sn, d2.sn);
  }

  lemma CompareTransitive(d1: Device, d2: Device, d3: Device)
    requires Compare(d1, d2) <= 0 && Compare(d2, d3) <= 0
    ensures Compare(d1, d3) <= 0
  {
    CompareAntisymmetric(d1, d2);
    CompareAntisymmetric(d2, d3);
    CompareAntisymmetric(d1, d3);
    var m1, m2, m3 := d1.manufacturer, d2.manufacturer, d3.manufacturer;
    StrCmpIntAntisymmetric(m1, m2);
    StrCmpIntAntisymmetric(m2, m3);
    if StrCmpInt(m1, m2) != 0 || StrCmpInt(m2, m3) != 0 {
      StrCmpIntTransitive(m1, m2, m3);
      return;
    }
    var p1, p2, p3 := d1.product, d2.product, d3.product;
    StrCmpIntAntisymmetric(p1, p2);
    StrCmpIntAntisymmetric(p2, p3);
    if StrCmpInt(p1, p2) != 0 || StrCmpInt(p2, p3) != 0 {
      StrCmpIntTransitive(p1, p2, p3);
      return;
    }
    var s1, s2, s3 := d1.sn, d2.sn, d3.sn;
    StrCmpAntisymmetric(s1, s2);
    StrCmpAntisymmetric(s2, s3);
    if StrCmp(s1, s2) != 0 || StrCmp(s2, s3) != 0 {
      StrCmpTransitive(s1, s2, s3);
      return;
    }
  }

  /** The scan never assigns vid or pid, so for scanned records the last two keys always tie. */
  lemma CompareIgnoresIds(d1: Device, d2: Device)
    requires d1.vid == d2.vid && d1.pid == d2.pid
    ensures Compare(d1, d2) == 0 <==>
              d1.manufacturer == d2.manufacturer && d1.product == d2.product && d1.sn == d2.sn
  {
  }

  // ---------------------------------------------------------------------------
  // Sorting (qsort with _compareFunc)
  // ---------------------------------------------------------------------------

  ghost predicate Sorted(s: seq<Device>)
  {
    forall i, j | 0 <= i < j < |s| :: Compare(s[i], s[j]) <= 0
  }

  function Insert(d: Device, s: seq<Device>): seq<Device>
  {
    if s == [] || Compare(d, s[0]) <= 0 then [d] + s else [s[0]] + Insert(d, s[1..])
  }

  /** The order qsort leaves the records in. qsort is not stable, so only sortedness and content are promised. */
  function SortDevices(s: seq<Device>): seq<Device>
  {
    if s == [] then [] else Insert(s[0], SortDevices(s[1..]))
  }

  lemma {:induction false} InsertPermutes(d: Device, s: seq<Device>)
    ensures multiset(Insert(d, s)) == multiset(s) + multiset{d} && |Insert(d, s)| == |s| + 1
  {
    if s != [] && Compare(d, s[0]) > 0 {
      InsertPermutes(d, s[1..]);
      assert s == [s[0]] + s[1..];
    }
  }

  /** `x` is ordered before every element of `r`. */
  ghost predicate Precedes(x: Device, r: seq<Device>)
  {
    forall j | 0 <= j < |r| :: Compare(x, r[j]) <= 0
  }

  lemma SortedCons(x: Device, r: seq<Device>)
    requires Sorted(r) && Precedes(x, r)
    ensures Sorted([x] + r)
  {
    var s := [x] + r;
    forall i, j | 0 <= i < j < |s|
      ensures Compare(s[i], s[j]) <= 0
    {
      assert s[j] == r[j - 1];
      if i > 0 {
        assert s[i] == r[i - 1];
      }
    }
  }

  lemma {:induction false} InsertPrecedes(x: Device, d: Device, t: seq<Device>)
    requires Precedes(x, t) && Compare(x, d) <= 0
    ensures Precedes(x, Insert(d, t))
  {
    if t != [] && Compare(d, t[0]) > 0 {
      InsertPrecedes(x, d, t[1..]);
      var r := Insert(d, t[1..]);
      assert Insert(d, t) == [t[0]] + r;
      forall j | 0 <= j < |r| + 1
        ensures Compare(x, ([t[0]] + r)[j]) <= 0
      {
        if j > 0 {
          assert ([t[0]] + r)[j] == r[j - 1];
        }
      }
    }
  }

  lemma {:induction false} InsertSorted(d: Device, s: seq<Device>)
    requires Sorted(s)
    ensures Sorted(Insert(d, s))
  {
    if s == [] || Compare(d, s[0]) <= 0 {
      forall j | 0 <= j < |s|
        ensures Compare(d, s[j]) <= 0
      {
        if j > 0 {
          CompareTransitive(d, s[0], s[j]);
        }
      }
      SortedCons(d, s);
    } else {
      var t := s[1..];
      assert Sorted(t) && Precedes(s[0], t) by {
        forall j | 0 <= j < |t|
          ensures Compare(s[0], t[j]) <= 0
        {
          assert t[j] == s[j + 1];
        }
      }
      InsertSorted(d, t);
      CompareAntisymmetric(d, s[0]);
      InsertPrecedes(s[0], d, t);
      SortedCons(s[0], Insert(d, t));
    }
  }

  lemma {:induction false} SortPermutes(s: seq<Device>)
    ensures multiset(SortDevices(s)) == multiset(s) && |SortDevices(s)| == |s|
  {
    if s != [] {
      SortPermutes(s[1..]);
      InsertPermutes(s[0], SortDevices(s[1..]));
      assert s == [s[0]] + s[1..];
    }
  }

  lemma {:induction false} SortSorted(s: seq<Device>)
    ensures Sorted(SortDevices(s))
  {
    if s != [] {
      SortSorted(s[1..]);
      InsertSorted(s[0], SortDevices(s[1..]));
    }
  }

  /** qsort's result is sorted by `_compareFunc` and holds the same records. */
  lemma SortDevicesCorrect(s: seq<Device>)
    ensures Sorted(SortDevices(s)) && multiset(SortDevices(s)) == multiset(s)
    ensures |SortDevices(s)| == |s|
  {
    SortPermutes(s);
    SortSorted(s);
  }

  // ---------------------------------------------------------------------------
  // The scan
  // ---------------------------------------------------------------------------

  /**
    One entry of libusb's device list, as far as the scan looks at it: the
    VID/PID and the three string descriptor indices (0 means no string) of its
    device descriptor, whether `libusb_open` succeeds on it, and the text its
    string descriptors read as.
  */
  datatype RawDevice = RawDevice(idVendor: int, idProduct: int, openable: bool,
                                 iSerialNumber: nat, serial: string,
                                 iManufacturer: nat, manufacturer: string,
                                 iProduct: nat, product: string)

  /** What `libusb_get_string_descriptor_ascii` leaves in the MAX_USB_DESC_LEN buffer: at most 255 bytes of the text. */
  function Descriptor(text: string): (r: string)
    ensures |r| < MAX_USB_DESC_LEN && r <= text
    ensures |text| < MAX_USB_DESC_LEN ==> r == text
    ensures |text| >= MAX_USB_DESC_LEN ==> |r| == MAX_USB_DESC_LEN - 1
  {
    if |text| < MAX_USB_DESC_LEN then text else text[..MAX_USB_DESC_LEN - 1]
  }

  /** `strstr(hay, needle) != NULL`. */
  predicate IsSubstring(needle: string, hay: string)
  {
    exists k | 0 <= k <= |hay| - |needle| :: OccursAt(needle, hay, k)
  }

  predicate OccursAt(needle: string, hay: string, k: nat)
    requires k + |needle| <= |hay|
  {
    hay[k..k + |needle|] == needle
  }

  /**
    The scan keeps a device when it is supported, can be opened, and either
    no serial filter is given or it has a serial string containing the filter.
  */
  predicate Matches(r: RawDevice, sn: Option<string>)
  {
    IsKnown(r.idVendor, r.idProduct) && r.openable &&
    (sn.None? || (r.iSerialNumber != 0 && IsSubstring(sn.value, Descriptor(r.serial))))
  }

  /** The result of scanning a prefix of the device list: the records and the contents of `tfrString`. */
  datatype ScanState = ScanState(found: seq<Device>, tfr: string)

  /** `tfrString` after the serial read: the serial text when the device has a serial string, and unchanged otherwise. */
  function ReadSerial(r: RawDevice, tfr: string): string
  {
    if r.iSerialNumber != 0 then Descriptor(r.serial) else tfr
  }

  /** `tfrString` after the manufacturer and product reads of a kept device. */
  function ReadNames(r: RawDevice, tfr: string): string
  {
    if r.iProduct != 0 then Descriptor(r.product)
    else if r.iManufacturer != 0 then Descriptor(r.manufacturer)
    else tfr
  }

  /** The record of a kept device `i`, with `tfr` the buffer after the serial read. */
  function MakeRecord(r: RawDevice, tfr: string, i: nat): Device
  {
    Device(tfr, if r.iManufacturer != 0 then Some(Descriptor(r.manufacturer)) else None,
           if r.iProduct != 0 then Some(Descriptor(r.product)) else None, 0, 0, i)
  }

  /**
    One pass of the scan loop over device `i`. `tfrString` is read into only
    when a descriptor index is nonzero, so a device without a serial string
    takes whatever the buffer last held as its serial.
  */
  function ScanStep(st: ScanState, r: RawDevice, i: nat, sn: Option<string>): ScanState
  {
    if !IsKnown(r.idVendor, r.idProduct) || !r.openable then st
    else
      var tfr := ReadSerial(r, st.tfr);
      if sn.None? || (r.iSerialNumber != 0 && IsSubstring(sn.value, tfr)) then
        ScanState(st.found + [MakeRecord(r, tfr, i)], ReadNames(r, tfr))
      else ScanState(st.found, tfr)
  }

  /** The scan over the first `n` devices, with `tfrString` initially holding `tfr0`. */
  function Scan(raw: seq<RawDevice>, sn: Option<string>, tfr0: string, n: nat): ScanState
    requires n <= |raw|
  {
    if n == 0 then ScanState([], tfr0) else ScanStep(Scan(raw, sn, tfr0, n - 1), raw[n - 1], n - 1, sn)
  }

  /** The positions in the device list of the devices the scan keeps, in list order. */
  function MatchingIndices(raw: seq<RawDevice>, sn: Option<string>, n: nat): seq<nat>
    requires n <= |raw|
  {
    if n == 0 then [] else MatchingIndices(raw, sn, n - 1) + (if Matches(raw[n - 1], sn) then [n - 1] else [])
  }

  function DevIndices(s: seq<Device>): (r: seq<nat>)
    ensures |r| == |s|
  {
    if s == [] then [] else DevIndices(s[..|s| - 1]) + [s[|s| - 1].devIndex]
  }

  /** What a record holds, given the device it was made from. */
  ghost predicate RecordOf(d: Device, r: RawDevice)
  {
    d.vid == 0 && d.pid == 0 &&
    (r.iSerialNumber != 0 ==> d.sn == Descriptor(r.serial)) &&
    (d.manufacturer.Some? <==> r.iManufacturer != 0) &&
    (r.iManufacturer != 0 ==> d.manufacturer == Some(Descriptor(r.manufacturer))) &&
    (d.product.Some? <==> r.iProduct != 0) &&
    (r.iProduct != 0 ==> d.product == Some(Descriptor(r.product)))
  }

  /** One pass appends exactly one record, made from the current device, when that device matches, and nothing otherwise. */
  lemma ScanStepAppends(st: ScanState, r: RawDevice, i: nat, sn: Option<string>)
    ensures var found := ScanStep(st, r, i, sn).found;
            if Matches(r, sn) then
              |found| == |st.found| + 1 && found[..|st.found|] == st.found &&
              found[|st.found|].devIndex == i && RecordOf(found[|st.found|], r)
            else found == st.found
  {
    var found := ScanStep(st, r, i, sn).found;
    if Matches(r, sn) {
      assert found[..|st.found|] == st.found;
    }
  }

  lemma {:induction false} DevIndicesAt(s: seq<Device>, j: nat)
    requires j < |s|
    ensures DevIndices(s)[j] == s[j].devIndex
  {
    if j < |s| - 1 {
      DevIndicesAt(s[..|s| - 1], j);
    }
  }

  /** One pass adds the current position to the record indices exactly when the device matches. */
  lemma ScanStepIndices(st: ScanState, r: RawDevice, i: nat, sn: Option<string>)
    ensures DevIndices(ScanStep(st, r, i, sn).found) == DevIndices(st.found) + (if Matches(r, sn) then [i] else [])
  {
    ScanStepAppends(st, r, i, sn);
  }

  /** The scan keeps the matching devices, one record each, in list order. */
  lemma {:induction false} ScanIndices(raw: seq<RawDevice>, sn: Option<string>, tfr0: string, n: nat)
    requires n <= |raw|
    ensures DevIndices(Scan(raw, sn, tfr0, n).found) == MatchingIndices(raw, sn, n)
  {
    if n > 0 {
      ScanIndices(raw, sn, tfr0, n - 1);
      ScanStepIndices(Scan(raw, sn, tfr0, n - 1), raw[n - 1], n - 1, sn);
    }
  }

  /** Each record holds its device's strings, with vid and pid 0. */
  lemma {:induction false} ScanContents(raw: seq<RawDevice>, sn: Option<string>, tfr0: string, n: nat)
    requires n <= |raw|
    ensures forall d | d in Scan(raw, sn, tfr0, n).found :: d.devIndex < n && RecordOf(d, raw[d.devIndex])
  {
    if n > 0 {
      ScanContents(raw, sn, tfr0, n - 1);
      var st := Scan(raw, sn, tfr0, n - 1);
      var found := Scan(raw, sn, tfr0, n).found;
      ScanStepAppends(st, raw[n - 1], n - 1, sn);
      forall d | d in found
        ensures d.devIndex < n && RecordOf(d, raw[d.devIndex])
      {
        var j :| 0 <= j < |found| && found[j] == d;
        if j < |st.found| {
          assert d == found[..|st.found|][j];
          assert d in st.found;
        }
      }
    }
  }

  /** A position appears among the matching indices exactly when that device matches. */
  lemma {:induction false} MatchingIndicesMembers(raw: seq<RawDevice>, sn: Option<string>, n: nat, i: nat)
    requires n <= |raw|
    ensures i in MatchingIndices(raw, sn, n) <==> i < n && Matches(raw[i], sn)
  {
    if n > 0 {
      MatchingIndicesMembers(raw, sn, n - 1, i);
    }
  }

  /**
    Filter correctness over the whole list: device `i` has a record exactly
    when it is supported, opens, and passes the serial filter; the number of
    records is the number of such devices.
  */
  lemma ScanFilter(raw: seq<RawDevice>, sn: Option<string>, tfr0: string, i: nat)
    ensures (exists d | d in Scan(raw, sn, tfr0, |raw|).found :: d.devIndex == i) <==>
              i < |raw| && Matches(raw[i], sn)
    ensures |Scan(raw, sn, tfr0, |raw|).found| == |MatchingIndices(raw, sn, |raw|)|
  {
    var found := Scan(raw, sn, tfr0, |raw|).found;
    ScanIndices(raw, sn, tfr0, |raw|);
    MatchingIndicesMembers(raw, sn, |raw|, i);
    if i in MatchingIndices(raw, sn, |raw|) {
      var j :| 0 <= j < |found| && DevIndices(found)[j] == i;
      DevIndicesAt(found, j);
      assert found[j] in found;
    }
    if exists d | d in found :: d.devIndex == i {
      var d :| d in found && d.devIndex == i;
      var j :| 0 <= j < |found| && found[j] == d;
      DevIndicesAt(found, j);
    }
  }

  /** Without a filter, a serial-less device takes the previous descriptor read as its serial: here the first device's product string. */
  lemma StaleSerialExample()
    ensures var a := RawDevice(0x1209, 0x3443, true, 3, "A1", 0, "", 2, "Orbtrace");
            var b := RawDevice(0x1209, 0x3443, true, 0, "", 0, "", 0, "");
            Scan([a, b], None, "", 2).found ==
              [Device("A1", None, Some("Orbtrace"), 0, 0, 0), Device("Orbtrace", None, None, 0, 0, 1)]
  {
    var a := RawDevice(0x1209, 0x3443, true, 3, "A1", 0, "", 2, "Orbtrace");
    var b := RawDevice(0x1209, 0x3443, true, 0, "", 0, "", 0, "");
    WhitelistExact(0x1209, 0x3443);
    var st1 := ScanState([Device("A1", None, Some("Orbtrace"), 0, 0, 0)], "Orbtrace");
    assert Scan([a, b], None, "", 1) == ScanStep(ScanState([], ""), a, 0, None) == st1;
    assert Scan([a, b], None, "", 2) == ScanStep(st1, b, 1, None);
  }

  /** Two supported devices without a manufacturer string reach `strcmp(NULL, NULL)` when the records are sorted. */
  lemma NullManufacturersReachUndefinedCompare()
    ensures var a := RawDevice(0x1209, 0x3443, true, 1, "A", 0, "", 0, "");
            var b := RawDevice(0x046d, 0x0892, true, 1, "B", 0, "", 0, "");
            var found := Scan([a, b], None, "", 2).found;
            |found| == 2 && CompareAsWritten(found[0], found[1]).None?
  {
    var a := RawDevice(0x1209, 0x3443, true, 1, "A", 0, "", 0, "");
    var b := RawDevice(0x046d, 0x0892, true, 1, "B", 0, "", 0, "");
    WhitelistExact(0x1209, 0x3443);
    WhitelistExact(0x046d, 0x0892);
    var st1 := ScanState([Device("A", None, None, 0, 0, 0)], "A");
    assert Scan([a, b], None, "", 1) == ScanStep(ScanState([], ""), a, 0, None) == st1;
    assert Scan([a, b], None, "", 2) == ScanStep(st1, b, 1, None);
  }

  // ---------------------------------------------------------------------------
  // The session context
  // ---------------------------------------------------------------------------

  /**
    `struct OrbtraceIf`: libusb's device list from the last scan, and the
    records of the devices that matched. The libusb handles and the `type`
    pointer are not modelled.
  */
  class OrbtraceIf {
    var list: seq<RawDevice>
    var numDevices: int
    var device: seq<Device>

    ghost predicate Valid()
      reads this
    {
      numDevices == |device|
    }

    /** `calloc`: every field zero. */
    constructor ()
      ensures Valid() && list == [] && numDevices == 0 && device == []
    {
      list := [];
      numDevices := 0;
      device := [];
    }

    /** OrbtraceIfCreateContext: a fresh, empty context, or NULL when `libusb_init` fails. */
    static method CreateContext(initOk: bool) returns (o: OrbtraceIf?)
      ensures initOk <==> o != null
      ensures o != null ==> fresh(o) && o.Valid() && o.list == [] && o.device == []
    {
      if !initOk {
        return null;
      }
      o := new OrbtraceIf();
    }

    /**
      `_flushDeviceList`: no records remain. The new state does not depend on
      the old records, so flushing twice is the same as flushing once.
    */
    method Flush()
      modifies this`numDevices, this`device
      ensures Valid() && numDevices == 0 && device == []
    {
      numDevices := 0;
      device := [];
    }

    /** OrbtraceIfDestroyContext: the records and libusb's list are released. */
    method Destroy()
      modifies this
      ensures Valid() && numDevices == 0 && device == [] && list == []
    {
      Flush();
      list := [];
    }

    /**
      OrbtraceIfGetDeviceList over the device list `raw`, with the optional
      partial serial `sn` and with `tfr0` the initial, uninitialised contents
      of `tfrString`. The old records are flushed; the new ones are the scan's
      matches, sorted; the result is their number.
    */
    method GetDeviceList(raw: seq<RawDevice>, sn: Option<string>, tfr0: string) returns (count: int)
      modifies this
      ensures Valid() && list == raw && count == numDevices
      ensures device == SortDevices(Scan(raw, sn, tfr0, |raw|).found)
      ensures Sorted(device) && multiset(device) == multiset(Scan(raw, sn, tfr0, |raw|).found)
      ensures count == |MatchingIndices(raw, sn, |raw|)|
    {
      Flush();
      list := raw;
      var tfr := tfr0;
      var i := 0;
      while i < |list|
        invariant i <= |list| && list == raw
        invariant Valid() && Scan(raw, sn, tfr0, i) == ScanState(device, tfr)
      {
        var desc := list[i];
        var y := FindValidDevice(desc.idVendor, desc.idProduct);
        if VALID_DEVICES[y].vid != 0 && desc.openable {
          if desc.iSerialNumber != 0 {
            tfr := Descriptor(desc.serial);
          }
          if sn.None? || (desc.iSerialNumber != 0 && IsSubstring(sn.value, tfr)) {
            var d := Device(tfr, None, None, 0, 0, i);
            if desc.iManufacturer != 0 {
              tfr := Descriptor(desc.manufacturer);
              d := d.(manufacturer := Some(tfr));
            }
            if desc.iProduct != 0 {
              tfr := Descriptor(desc.product);
              d := d.(product := Some(tfr));
            }
            device := device + [d];
            numDevices := numDevices + 1;
          }
        }
        i := i + 1;
      }
      SortDevicesCorrect(device);
      ScanFilter(raw, sn, tfr0, 0);
      device := SortDevices(device);
      count := numDevices;
    }

    /** OrbtraceIfGetManufacturer: the stored string, or "" for an index past the records or a NULL field. */
    function GetManufacturer(e: int): (s: string)
      reads this
      requires Valid() && 0 <= e
      ensures e < numDevices && device[e].manufacturer.Some? ==> s == device[e].manufacturer.value
      ensures e >= numDevices || device[e].manufacturer.None? ==> s == ""
    {
      if e < numDevices && device[e].manufacturer.Some? then device[e].manufacturer.value else ""
    }

    /** OrbtraceIfGetProduct: the same rule for the product string. */
    function GetProduct(e: int): (s: string)
      reads this
      requires Valid() && 0 <= e
      ensures e < numDevices && device[e].product.Some? ==> s == device[e].product.value
      ensures e >= numDevices || device[e].product.None? ==> s == ""
    {
      if e < numDevices && device[e].product.Some? then device[e].product.value else ""
    }

    /** OrbtraceIfGetSN: the same rule for the serial, which the scan always sets. */
    function GetSN(e: int): (s: string)
      reads this
      requires Valid() && 0 <= e
      ensures e < numDevices ==> s == device[e].sn
      ensures e >= numDevices ==> s == ""
    {
      if e < numDevices then device[e].sn else ""
    }

    /** OrbtraceIfValidateVoltage: a stub that accepts every voltage. */
    static function ValidateVoltage(vmv: int): (ok: bool)
      ensures ok
    {
      true
    }

    /** OrbtraceIfOpenDevice: a stub that never opens anything. */
    function OpenDevice(entry: int): (ok: bool)
      ensures !ok
    {
      false
    }
  }

  /**
    After a scan, the accessors report each listed device's own descriptor
    strings: "" when it has no manufacturer or product string.
  */
  lemma AccessorsAfterScan(o: OrbtraceIf, raw: seq<RawDevice>, sn: Option<string>, tfr0: string, e: int)
    requires o.Valid() && o.device == SortDevices(Scan(raw, sn, tfr0, |raw|).found)
    requires 0 <= e < o.numDevices
    ensures o.device[e].devIndex < |raw| && Matches(raw[o.device[e].devIndex], sn)
    ensures var r := raw[o.device[e].devIndex];
            o.GetManufacturer(e) == (if r.iManufacturer != 0 then Descriptor(r.manufacturer) else "") &&
            o.GetProduct(e) == (if r.iProduct != 0 then Descriptor(r.product) else "") &&
            (r.iSerialNumber != 0 ==> o.GetSN(e) == Descriptor(r.serial))
  {
    var found := Scan(raw, sn, tfr0, |raw|).found;
    SortDevicesCorrect(found);
    ScanContents(raw, sn, tfr0, |raw|);
    var d := o.device[e];
    assert d in multiset(o.device);
    assert d in found;
    ScanFilter(raw, sn, tfr0, d.devIndex);
  }
}
