/** The decisions of the command-line front-end (src/bin/cli.rs) that come before any
    request: the default device, the `switch` flags, the `modes` listing and search, the
    `combined set` arguments and the `effect preview` ranges. Printing and the requests
    themselves are not modelled; each arm returns what it would send, or how it fails. */
module Cli {
  import opened Types
  import opened Strings
  import opened Decimal
  import opened EffectTables

  /** How an arm fails: `Exit1` prints its message and exits with status 1 on the spot;
      `Propagated` is an error returned with `?` out of `main`. */
  datatype CliError = Exit1(message: string) | Propagated(message: string)

  // ---- the device ----

  const NoDevices: string := "No devices found. Please specify a device ID using --device"

  /** `get_default_device` over the fetched device list: the first device's id. */
  function DefaultDevice(devices: seq<Device>): (r: Result<string, CliError>)
    ensures r.Err? <==> |devices| == 0
    ensures r.Err? ==> r.error == Propagated(NoDevices)
    ensures r.Ok? ==> r.value == devices[0].deviceId
  {
    if |devices| == 0 then Err(Propagated(NoDevices)) else Ok(devices[0].deviceId)
  }

  /** A `--device` given on the command line, else the default device. The list is
      fetched only in the second case. */
  function ResolveDevice(device: Option<string>, devices: seq<Device>): (r: Result<string, CliError>)
    ensures device.Some? ==> r == Ok(device.value)
    ensures device.None? ==> r == DefaultDevice(devices)
  {
    match device
    case Some(id) => Ok(id)
    case None => DefaultDevice(devices)
  }

  // ---- switch ----

  const OneStateFlag: string := "Error: Exactly one state flag (--off, --manual, or --timer) must be provided"

  /** How many of the flags are set. */
  function CountTrue(flags: seq<bool>): (n: nat)
    ensures n == multiset(flags)[true]
    ensures n <= |flags|
    decreases |flags|
  {
    if |flags| == 0 then 0
    else
      assert flags == [flags[0]] + flags[1..];
      (if flags[0] then 1 else 0) + CountTrue(flags[1..])
  }

  /** The `switch` arm: exactly one of the three flags, giving state 0 (off), 1 (manual)
      or 2 (timer); the device is resolved only after the flags pass. */
  function SwitchArm(device: Option<string>, off: bool, manual: bool, timer: bool, devices: seq<Device>)
    : (r: Result<(string, int), CliError>)
    ensures !ExactlyOne(off, manual, timer) ==> r == Err(Exit1(OneStateFlag))
    ensures ExactlyOne(off, manual, timer) ==>
              match ResolveDevice(device, devices)
              case Err(e) => r == Err(e)
              case Ok(id) => r.Ok? && r.value.0 == id
    ensures r.Ok? ==> (r.value.1 == 0 <==> off) && (r.value.1 == 1 <==> manual) && (r.value.1 == 2 <==> timer)
  {
    var stateCount := CountTrue([off, manual, timer]);
    CountOfThree(off, manual, timer);
    if stateCount != 1 then Err(Exit1(OneStateFlag))
    else
      var state := if off then 0 else if manual then 1 else 2;
      match ResolveDevice(device, devices)
      case Err(e) => Err(e)
      case Ok(id) => Ok((id, state))
  }

  predicate ExactlyOne(a: bool, b: bool, c: bool) {
    (a && !b && !c) || (!a && b && !c) || (!a && !b && c)
  }

  /** Counting the set flags agrees with the three-way case analysis. */
  lemma CountOfThree(a: bool, b: bool, c: bool)
    ensures CountTrue([a, b, c]) == 1 <==> ExactlyOne(a, b, c)
  {
    assert [a, b, c][1..] == [b, c];
    assert [b, c][1..] == [c];
    assert [c][1..] == [];
    assert CountTrue([c]) == (if c then 1 else 0);
    assert CountTrue([b, c]) == (if b then 1 else 0) + (if c then 1 else 0);
  }

  // ---- modes ----

  /** The search test: the lower-cased name contains the lower-cased term. */
  predicate Matches(m: EffectMode, term: string) {
    Contains(Lower(m.name), Lower(term))
  }

  /** `retain`: the entries that match, in their original order. */
  function Filter(xs: seq<EffectMode>, term: string): (r: seq<EffectMode>)
    ensures |r| <= |xs|
    ensures forall m :: m in r <==> m in xs && Matches(m, term)
    decreases |xs|
  {
    if |xs| == 0 then []
    else (if Matches(xs[0], term) then [xs[0]] else []) + Filter(xs[1..], term)
  }

  /** Filtering a concatenation filters each part, so the order of the parts is kept. */
  lemma {:induction false} FilterAppend(xs: seq<EffectMode>, ys: seq<EffectMode>, term: string)
    ensures Filter(xs + ys, term) == Filter(xs, term) + Filter(ys, term)
    decreases |xs|
  {
    if |xs| > 0 {
      FilterAppend(xs[1..], ys, term);
      var zs := xs + ys;
      assert zs[0] == xs[0];
      assert zs[1..] == xs[1..] + ys;
      var head := if Matches(xs[0], term) then [xs[0]] else [];
      assert Filter(zs, term) == head + Filter(zs[1..], term);
      assert Filter(xs, term) == head + Filter(xs[1..], term);
    } else {
      assert xs + ys == ys;
    }
  }

  /** `r` is obtained from `xs` by deleting entries. */
  predicate SubsequenceOf(r: seq<EffectMode>, xs: seq<EffectMode>)
    decreases |xs|
  {
    |r| == 0
    || (|xs| > 0 && ((r[0] == xs[0] && SubsequenceOf(r[1..], xs[1..])) || SubsequenceOf(r, xs[1..])))
  }

  /** The search result is an order-preserving subsequence of what it searched. */
  lemma {:induction false} FilterSubsequence(xs: seq<EffectMode>, term: string)
    ensures SubsequenceOf(Filter(xs, term), xs)
    decreases |xs|
  {
    if |xs| > 0 {
      FilterSubsequence(xs[1..], term);
      var rest := Filter(xs[1..], term);
      if Matches(xs[0], term) {
        assert Filter(xs, term) == [xs[0]] + rest;
        assert ([xs[0]] + rest)[1..] == rest;
      } else {
        assert Filter(xs, term) == rest;
      }
    }
  }

  /** Which tables `modes` shows: both when neither flag or both flags are given, else
      only the one flagged. */
  function ShownTables(builtIn: bool, custom: bool): (shown: (bool, bool))
    ensures shown.0 <==> builtIn || !custom
    ensures shown.1 <==> custom || !builtIn
    ensures shown.0 || shown.1
  {
    (!custom || builtIn, !builtIn || custom)
  }

  /** The entries listed, before any search: built-in first when shown. */
  function Listing(showBuiltIn: bool, showCustom: bool): seq<EffectMode> {
    (if showBuiltIn then BuiltInEffects else []) + (if showCustom then CustomEffects else [])
  }

  /** The `modes` arm: the shown tables, built-in entries first, narrowed by the search
      term when one is given. */
  function ModesArm(search: Option<string>, builtIn: bool, custom: bool): (r: seq<EffectMode>)
    ensures forall m :: m in r <==>
              && ((ShownTables(builtIn, custom).0 && m in BuiltInEffects)
                  || (ShownTables(builtIn, custom).1 && m in CustomEffects))
              && (search.Some? ==> Matches(m, search.value))
    ensures BuiltInFirst(r)
  {
    var shown := ShownTables(builtIn, custom);
    var modes := Listing(shown.0, shown.1);
    ModesOrder(shown.0, shown.1, search);
    if search.Some? then Filter(modes, search.value) else modes
  }

  /** No built-in entry follows an entry of another category. */
  predicate BuiltInFirst(r: seq<EffectMode>) {
    forall i, j :: 0 <= i < j < |r| && r[j].category == BuiltIn ==> r[i].category == BuiltIn
  }

  /** Entries whose category is `category`. */
  predicate AllLabelled(xs: seq<EffectMode>, category: string) {
    forall k :: 0 <= k < |xs| ==> xs[k].category == category
  }

  lemma FilterLabelled(xs: seq<EffectMode>, term: string, category: string)
    requires AllLabelled(xs, category)
    ensures AllLabelled(Filter(xs, term), category)
  {
    var r := Filter(xs, term);
    forall k | 0 <= k < |r|
      ensures r[k].category == category
    {
      assert r[k] in r;
    }
  }

  /** In the listing, searched or not, no built-in entry follows a custom one. */
  lemma ModesOrder(showBuiltIn: bool, showCustom: bool, search: Option<string>)
    ensures BuiltInFirst(if search.Some? then Filter(Listing(showBuiltIn, showCustom), search.value)
                         else Listing(showBuiltIn, showCustom))
  {
    TableIds();
    var b := if showBuiltIn then BuiltInEffects else [];
    var c := if showCustom then CustomEffects else [];
    var fb := if search.Some? then Filter(b, search.value) else b;
    var fc := if search.Some? then Filter(c, search.value) else c;
    assert AllLabelled(b, BuiltIn) && AllLabelled(c, Custom);
    if search.Some? {
      FilterAppend(b, c, search.value);
      FilterLabelled(b, search.value, BuiltIn);
      FilterLabelled(c, search.value, Custom);
    }
    assert AllLabelled(fb, BuiltIn) && AllLabelled(fc, Custom);
    LabelledRuns(fb, fc);
  }

  /** A built-in run followed by a custom run lists built-in entries first. */
  lemma LabelledRuns(fb: seq<EffectMode>, fc: seq<EffectMode>)
    requires AllLabelled(fb, BuiltIn) && AllLabelled(fc, Custom)
    ensures BuiltInFirst(fb + fc)
  {
    var r := fb + fc;
    assert BuiltIn != Custom by {
      assert BuiltIn[0] != Custom[0];
    }
    forall j | |fb| <= j < |r|
      ensures r[j].category == Custom
    {
      assert r[j] == fc[j - |fb|];
    }
    forall i | 0 <= i < |fb|
      ensures r[i].category == BuiltIn
    {
      assert r[i] == fb[i];
    }
  }

  // ---- combined set ----

  const InvalidEffectIds: string := "Invalid effect ID format. Use comma-separated numbers"
  const NoEffectIds: string := "Error: At least one effect ID must be provided"
  const BadInterval: string := "Error: Interval must be between 1 and 3600 seconds"

  /** One piece of the list: `s.trim().parse::<i32>()`. */
  function ParsePiece(piece: string): Option<int> {
    ParseI32(Trim(piece))
  }

  /** `map(f).collect::<Result<Vec<_>, _>>()`: every element converted by `f`, or `None`
      as soon as one fails. */
  function CollectAll<T>(pieces: seq<string>, f: string -> Option<T>): (r: Option<seq<T>>)
    ensures r.Some? <==> forall k :: 0 <= k < |pieces| ==> f(pieces[k]).Some?
    ensures r.Some? ==> |r.value| == |pieces|
    ensures r.Some? ==> forall k :: 0 <= k < |pieces| ==> f(pieces[k]) == Some(r.value[k])
    decreases |pieces|
  {
    if |pieces| == 0 then Some([])
    else
      var first := f(pieces[0]);
      var tail := pieces[1..];
      assert forall k :: 1 <= k < |pieces| ==> pieces[k] == tail[k - 1];
      if first.None? then None
      else
        match CollectAll(tail, f)
        case None => None
        case Some(rest) =>
          var ids := [first.value] + rest;
          assert forall k :: 1 <= k < |pieces| ==> ids[k] == rest[k - 1];
          Some(ids)
  }

  /** When every element converts, the result is exactly the converted values. */
  lemma CollectAllExact<T>(pieces: seq<string>, f: string -> Option<T>, values: seq<T>)
    requires |pieces| == |values| && forall k :: 0 <= k < |pieces| ==> f(pieces[k]) == Some(values[k])
    ensures CollectAll(pieces, f) == Some(values)
  {
    var r := CollectAll(pieces, f);
    assert r.Some?;
    var got := r.value;
    assert |got| == |values|;
    assert forall k :: 0 <= k < |values| ==> got[k] == values[k];
    assert got == values;
  }

  /** The effect-id list of `combined set`: split at commas, trim, parse. */
  function ParseEffectIds(effects: string): (r: Option<seq<int>>)
    ensures r.Some? <==> AllPiecesParse(Split(effects, ','))
    ensures r.Some? ==> |r.value| == Occurrences(effects, ',') + 1
    ensures r.Some? ==> forall k :: 0 <= k < |r.value| ==> ParsePiece(Split(effects, ',')[k]) == Some(r.value[k])
  {
    ParsePiecesAll(Split(effects, ','));
    CollectAll(Split(effects, ','), ParsePiece)
  }

  /** Every piece, trimmed, is an `i32`. */
  predicate AllPiecesParse(pieces: seq<string>) {
    forall k :: 0 <= k < |pieces| ==> ParsePiece(pieces[k]).Some?
  }

  /** Every piece parsing is what makes the collection succeed. */
  lemma ParsePiecesAll(pieces: seq<string>)
    ensures AllPiecesParse(pieces) <==> CollectAll(pieces, ParsePiece).Some?
  {
    var f: string -> Option<int> := ParsePiece;
    if AllPiecesParse(pieces) {
      forall k | 0 <= k < |pieces|
        ensures f(pieces[k]).Some?
      {
        assert ParsePiece(pieces[k]).Some?;
      }
    }
    if CollectAll(pieces, f).Some? {
      forall k | 0 <= k < |pieces|
        ensures ParsePiece(pieces[k]).Some?
      {
        assert f(pieces[k]).Some?;
      }
    }
  }

  /** The `combined set` arm. The device is resolved first, then the ids are parsed,
      then the interval is checked. */
  function CombinedSetArm(device: Option<string>, effects: string, interval: int, devices: seq<Device>)
    : (r: Result<(string, seq<int>, int), CliError>)
    ensures ResolveDevice(device, devices).Err? ==> r == Err(ResolveDevice(device, devices).error)
    ensures ResolveDevice(device, devices).Ok? && ParseEffectIds(effects).None? ==> r == Err(Propagated(InvalidEffectIds))
    ensures ResolveDevice(device, devices).Ok? && ParseEffectIds(effects).Some? ==>
              (r.Ok? <==> 1 <= interval <= 3600)
    ensures ResolveDevice(device, devices).Ok? && ParseEffectIds(effects).Some? && !(1 <= interval <= 3600) ==>
              r == Err(Exit1(BadInterval))
    ensures r.Ok? ==> r.value.0 == ResolveDevice(device, devices).value
    ensures r.Err? ==> r.error != Exit1(NoEffectIds)
    ensures r.Ok? ==> |r.value.1| >= 1 && Some(r.value.1) == ParseEffectIds(effects) && r.value.2 == interval
  {
    match ResolveDevice(device, devices)
    case Err(e) => Err(e)
    case Ok(id) =>
      match ParseEffectIds(effects)
      case None => Err(Propagated(InvalidEffectIds))
      case Some(ids) =>
        if |ids| == 0 then Err(Exit1(NoEffectIds))
        else if interval < 1 || interval > 3600 then Err(Exit1(BadInterval))
        else Ok((id, ids, interval))
  }

  /** Round trip: a non-empty list of `i32` ids written comma-separated parses back to
      itself. */
  lemma ParseEffectIdsRoundTrip(ids: seq<int>)
    requires |ids| >= 1 && forall k :: 0 <= k < |ids| ==> I32Min <= ids[k] <= I32Max
    ensures ParseEffectIds(Join(Rendered(ids), ",")) == Some(ids)
  {
    RenderedSplits(ids);
    RenderedParse(ids);
    CollectAllExact(Rendered(ids), ParsePiece, ids);
  }

  /** The comma-joined renderings split back into the renderings. */
  lemma RenderedSplits(ids: seq<int>)
    requires |ids| >= 1
    ensures Split(Join(Rendered(ids), ","), ',') == Rendered(ids)
  {
    var pieces := Rendered(ids);
    forall k | 0 <= k < |pieces|
      ensures ',' !in pieces[k]
    {
      IntToStringChars(ids[k]);
    }
    SplitJoin(pieces, ',');
  }

  /** Each rendering parses back to its id. */
  lemma RenderedParse(ids: seq<int>)
    requires forall k :: 0 <= k < |ids| ==> I32Min <= ids[k] <= I32Max
    ensures forall k :: 0 <= k < |ids| ==> ParsePiece(Rendered(ids)[k]) == Some(ids[k])
  {
    forall k | 0 <= k < |ids|
      ensures ParsePiece(Rendered(ids)[k]) == Some(ids[k])
    {
      RenderedTrims(ids[k]);
      ParseIntToString(ids[k]);
    }
  }

  /** The decimal rendering of each id. */
  function Rendered(ids: seq<int>): (pieces: seq<string>)
    ensures |pieces| == |ids| && forall k :: 0 <= k < |ids| ==> pieces[k] == IntToString(ids[k])
  {
    seq(|ids|, k requires 0 <= k < |ids| => IntToString(ids[k]))
  }

  /** A rendered integer has no surrounding whitespace. */
  lemma RenderedTrims(i: int)
    ensures Trim(IntToString(i)) == IntToString(i)
  {
    var s := IntToString(i);
    IntToStringChars(i);
    assert !IsWhitespace(s[0]);
    assert TrimStart(s) == s;
    assert !IsWhitespace(s[|s| - 1]);
    assert TrimEnd(s) == s;
  }

  // ---- effect preview ----

  /** The arguments of a built-in effect preview. */
  datatype Preview = Preview(deviceId: string, mode: int, speed: int, brightness: int, pixelLen: int, reverse: bool)

  const BadMode: string := "Invalid mode. Must be between 0 and 179"
  const BadSpeed: string := "Invalid speed. Must be between 0 and 255"
  const BadBrightness: string := "Invalid brightness. Must be between 0 and 255"
  const BadPixelLen: string := "Invalid pixel length. Must be between 1 and 90"

  /** The `effect preview` arm: four range checks in order, then the device. */
  function PreviewArm(device: Option<string>, mode: int, speed: int, brightness: int, pixelLen: int,
                      reverse: bool, devices: seq<Device>): (r: Result<Preview, CliError>)
    ensures !(0 <= mode <= 179) ==> r == Err(Exit1(BadMode))
    ensures 0 <= mode <= 179 && !(0 <= speed <= 255) ==> r == Err(Exit1(BadSpeed))
    ensures 0 <= mode <= 179 && 0 <= speed <= 255 && !(0 <= brightness <= 255) ==> r == Err(Exit1(BadBrightness))
    ensures 0 <= mode <= 179 && 0 <= speed <= 255 && 0 <= brightness <= 255 && !(1 <= pixelLen <= 90) ==>
              r == Err(Exit1(BadPixelLen))
    ensures r.Ok? <==>
              0 <= mode <= 179 && 0 <= speed <= 255 && 0 <= brightness <= 255 && 1 <= pixelLen <= 90
              && ResolveDevice(device, devices).Ok?
    ensures r.Ok? ==> r.value == Preview(ResolveDevice(device, devices).value, mode, speed, brightness, pixelLen, reverse)
  {
    if mode < 0 || mode > 179 then Err(Exit1(BadMode))
    else if speed < 0 || speed > 255 then Err(Exit1(BadSpeed))
    else if brightness < 0 || brightness > 255 then Err(Exit1(BadBrightness))
    else if pixelLen < 1 || pixelLen > 90 then Err(Exit1(BadPixelLen))
    else
      match ResolveDevice(device, devices)
      case Err(e) => Err(e)
      case Ok(id) => Ok(Preview(id, mode, speed, brightness, pixelLen, reverse))
  }

  /** The preview's mode range is exactly the ids of the built-in table. */
  lemma PreviewModesAreBuiltIn(mode: int)
    ensures 0 <= mode <= 179 <==> exists k :: 0 <= k < |BuiltInEffects| && BuiltInEffects[k].id == mode
  {
    TableIds();
    if 0 <= mode <= 179 {
      assert BuiltInEffects[mode].id == mode;
    }
  }

  /** An empty id list is one empty piece, which fails to parse: the format error, not
      the "at least one" exit. */
  lemma EmptyEffectIdsExample()
    ensures ParseEffectIds("") == None
    ensures CombinedSetArm(Some("dev"), "", 10, []) == Err(Propagated(InvalidEffectIds))
  {
    assert Split("", ',') == [""];
    assert Trim("") == "";
  }
}
