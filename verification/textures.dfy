/** Resolution labels, and the file plan of a texture set. */
module Textures {
  import opened Wrappers
  import opened FileNames
  import opened Decimals

  const U32: nat := 0x1_0000_0000

  // ---------------------------------------------------------------------------
  // Labels
  // ---------------------------------------------------------------------------

  /** How the standard library reads an unsigned 32-bit number: a plus sign and leading zeros are allowed. */
  function ParseU32(s: string): Option<nat>
  {
    if |s| > 1 && s[0] == '+' then Unsigned(s[1..]) else Unsigned(s)
  }

  function Unsigned(digits: string): Option<nat>
  {
    if digits != "" && (forall i | 0 <= i < |digits| :: IsDigit(digits[i])) && Value(digits) < U32 then Some(Value(digits))
    else None
  }

  function ParseLabel(text: string): Option<nat>
  {
    var label_ := Lower(Trim(text));
    if label_ == "" || label_[|label_| - 1] != 'k' then None
    else
      match ParseU32(label_[..|label_| - 1])
      case None => None
      case Some(v) => if v * 1024 < U32 then Some(v * 1024) else None
  }

  function Label(pixels: nat): string
  {
    if pixels % 1024 == 0 then Digits(pixels / 1024) + "k" else Digits(pixels)
  }

  /** Digits without a leading zero, then a small k. */
  ghost predicate Canonical(s: string)
  {
    && |s| >= 2 && s[|s| - 1] == 'k' && (forall i | 0 <= i < |s| - 1 :: IsDigit(s[i]))
    && (s[0] == '0' ==> |s| == 2)
  }

  lemma DigitsAreTight(s: string)
    requires |s| >= 1 && s[|s| - 1] == 'k' && forall i | 0 <= i < |s| - 1 :: IsDigit(s[i])
    ensures Lower(Trim(s)) == s
  {
    assert !IsSpace(s[0]) && !IsSpace(s[|s| - 1]);
    TightStays(s);
    LowerStays(s);
  }

  /** What is printed reads back, for every resolution a label can name. */
  lemma LabelReadsBack(pixels: nat)
    requires pixels % 1024 == 0 && pixels < U32
    ensures ParseLabel(Label(pixels)) == Some(pixels)
  {
    hide Digits, Value, Lower, Trim;
    var k := pixels / 1024;
    var s := Digits(k) + "k";
    ValueOfDigits(k);
    DigitsAreTight(s);
    assert s[..|s| - 1] == Digits(k) && Digits(k)[0] != '+';
    assert k * 1024 == pixels;
  }

  /** What is read prints back as it was exactly when it was written the canonical way. */
  lemma ReadPrintsBackExactlyWhenCanonical(s: string)
    requires ParseLabel(s).Some?
    ensures Label(ParseLabel(s).value) == s <==> Canonical(s)
  {
    var k := ParseLabel(s).value / 1024;
    RungsAreLabels(s);
    ValueOfDigits(k);
    hide Lower, Trim, Value, Digits, ParseLabel;
    if Canonical(s) {
      DigitsAreTight(s);
      CanonicalPrints(s);
    }
  }

  lemma CanonicalPrints(s: string)
    requires Canonical(s) && Lower(Trim(s)) == s && ParseLabel(s).Some?
    ensures Label(ParseLabel(s).value) == s
  {
    hide Lower, Trim, Value, Digits;
    var digits := s[..|s| - 1];
    assert s == digits + "k";
    DigitsOfValue(digits);
    assert ParseLabel(s).value == Value(digits) * 1024;
    assert Value(digits) * 1024 / 1024 == Value(digits);
  }

  lemma NumberReads(sign: string, digits: string)
    requires sign in ["", "+"] && digits != "" && (forall i | 0 <= i < |digits| :: IsDigit(digits[i]))
    ensures ParseU32(sign + digits) == if Value(digits) < U32 then Some(Value(digits)) else None
  {
    hide Value;
    assert (sign + digits)[|sign|..] == digits;
    assert sign == "" ==> sign + digits == digits;
  }

  lemma NumberIsRead(s: string) returns (sign: string, digits: string)
    requires ParseU32(s).Some?
    ensures sign in ["", "+"] && digits != "" && (forall i | 0 <= i < |digits| :: IsDigit(digits[i]))
    ensures s == sign + digits && ParseU32(s) == Some(Value(digits))
  {
    hide Value;
    if |s| > 1 && s[0] == '+' {
      sign, digits := "+", s[1..];
    } else {
      sign, digits := "", s;
    }
  }

  /** White space around it and the case of the letter aside: a number in digits, perhaps after a plus sign, and a k. */
  ghost predicate Spelt(text: string, sign: string, digits: string)
  {
    && sign in ["", "+"] && digits != "" && (forall i | 0 <= i < |digits| :: IsDigit(digits[i]))
    && Lower(Trim(text)) == sign + digits + "k"
  }

  lemma SpeltReads(text: string, sign: string, digits: string)
    requires Spelt(text, sign, digits)
    ensures ParseLabel(text) == if Value(digits) * 1024 < U32 then Some(Value(digits) * 1024) else None
  {
    hide Lower, Trim, Value;
    var s := Lower(Trim(text));
    assert s[..|s| - 1] == sign + digits && s[|s| - 1] == 'k';
    NumberReads(sign, digits);
    hide ParseU32;
  }

  /** A label is read exactly when it is spelt so, as so many times 1024, if that is below 2^32. */
  lemma LabelReadsExactlyWhen(text: string, pixels: nat)
    ensures ParseLabel(text) == Some(pixels) <==>
              pixels < U32 && exists sign, digits :: Spelt(text, sign, digits) && pixels == Value(digits) * 1024
  {
    hide Lower, Trim, Value;
    if ParseLabel(text) == Some(pixels) {
      var s := Lower(Trim(text));
      var front := s[..|s| - 1];
      var sign, digits := NumberIsRead(front);
      assert s == front + "k" == sign + digits + "k";
      assert Spelt(text, sign, digits);
    }
    if sign, digits :| Spelt(text, sign, digits) && pixels == Value(digits) * 1024 { SpeltReads(text, sign, digits); }
  }

  /** A number that no label can name is printed in digits. */
  lemma OtherLabelsAreDigits(pixels: nat)
    requires pixels % 1024 != 0
    ensures (forall i | 0 <= i < |Label(pixels)| :: IsDigit(Label(pixels)[i])) && Value(Label(pixels)) == pixels
  {
    ValueOfDigits(pixels);
  }

  // ---------------------------------------------------------------------------
  // Choosing a resolution
  // ---------------------------------------------------------------------------

  function Smallest(available: seq<nat>, from: nat): (r: Option<nat>)
    ensures r.None? <==> forall a | a in available :: a < from
    ensures r.Some? ==> r.value in available && r.value >= from && forall a | a in available && a >= from :: r.value <= a
  {
    if available == [] then None
    else
      assert available[0] in available && forall a :: a in available <==> a == available[0] || a in available[1..];
      var rest := Smallest(available[1..], from);
      if available[0] >= from && (rest.None? || available[0] < rest.value) then Some(available[0]) else rest
  }

  function Largest(available: seq<nat>, upTo: nat): (r: Option<nat>)
    ensures r.None? <==> forall a | a in available :: a > upTo
    ensures r.Some? ==> r.value in available && r.value <= upTo && forall a | a in available && a <= upTo :: r.value >= a
  {
    if available == [] then None
    else
      assert available[0] in available && forall a :: a in available <==> a == available[0] || a in available[1..];
      var rest := Largest(available[1..], upTo);
      if available[0] <= upTo && (rest.None? || available[0] > rest.value) then Some(available[0]) else rest
  }

  function Greatest(available: seq<nat>): (r: Option<nat>)
    ensures r.None? <==> available == []
    ensures r.Some? ==> r.value in available && forall a | a in available :: r.value >= a
  {
    if available == [] then None
    else
      assert available[0] in available && forall a :: a in available <==> a == available[0] || a in available[1..];
      var rest := Greatest(available[1..]);
      if rest.None? || available[0] > rest.value then Some(available[0]) else rest
  }

  function OrElse(a: Option<nat>, b: Option<nat>): Option<nat>
  {
    if a.Some? then a else b
  }

  function PreferredDefault(available: seq<nat>): Option<nat>
  {
    if 2048 in available then Some(2048) else OrElse(Largest(available, 4096), Smallest(available, 0))
  }

  function Nearest(available: seq<nat>, wanted: Option<nat>): Option<nat>
  {
    match wanted
    case None => PreferredDefault(available)
    case Some(w) => OrElse(Smallest(available, w), Greatest(available))
  }

  /** The smallest offered that is not below the wish, else the largest offered; without a wish 2k, else the largest up
      to 4k, else the smallest. */
  lemma NearestIsTheRung(available: seq<nat>, wanted: Option<nat>)
    ensures Nearest(available, wanted).None? <==> available == []
    ensures available != [] ==>
              var r := Nearest(available, wanted).value;
              && r in available
              && (wanted.Some? ==>
                    if exists a :: a in available && a >= wanted.value
                    then r >= wanted.value && forall a | a in available && a >= wanted.value :: r <= a
                    else forall a | a in available :: a <= r)
              && (wanted.None? ==>
                    if 2048 in available then r == 2048
                    else if exists a :: a in available && a <= 4096
                    then r <= 4096 && forall a | a in available && a <= 4096 :: a <= r
                    else forall a | a in available :: r <= a)
  {
    if available != [] { assert available[0] in available; }
  }

  // ---------------------------------------------------------------------------
  // The plan
  // ---------------------------------------------------------------------------

  /** A JSON object: its keys in order. */
  type Object<V> = seq<(string, V)>

  datatype Leaf = Leaf(url: string, size: Option<nat>)

  /** Formats at one resolution; an entry without an address gives no leaf. */
  type Shelf = Object<Option<Leaf>>

  type Node = Object<Shelf>

  datatype Planned = Planned(url: string, filename: string, map_: string, size: Option<nat>)

  datatype Failure = NoSuchMaps | NoResolution | NothingAt(wanted: string)

  datatype Plan = Plan(resolution: nat, files: seq<Planned>) | NoPlan(why: Failure)

  const FORMAT_KEYS: seq<string> := ["blend", "gltf", "fbx", "usd", "mtlx"]
  const DEFAULT_MAPS: seq<string> := ["Diffuse", "nor_gl", "Rough", "Displacement", "AO", "Metal"]
  const FORMATS: seq<string> := ["jpg", "png", "exr", "tif"]

  function Get<V>(o: Object<V>, key: string): (r: Option<V>)
    ensures r.Some? <==> exists i :: 0 <= i < |o| && o[i].0 == key
  {
    if o == [] then None else if o[0].0 == key then Some(o[0].1) else Get(o[1..], key)
  }

  function Keys<V>(o: Object<V>): (r: seq<string>)
    ensures |r| == |o| && forall i | 0 <= i < |o| :: r[i] == o[i].0
  {
    if o == [] then [] else [o[0].0] + Keys(o[1..])
  }

  predicate SameLetters(a: string, b: string)
  {
    Lower(a) == Lower(b)
  }

  function FindLike(names: seq<string>, wanted: string): (r: Option<string>)
    ensures r.Some? ==> r.value in names
  {
    if names == [] then None else if SameLetters(names[0], wanted) then Some(names[0]) else FindLike(names[1..], wanted)
  }

  function FirstLike(names: seq<string>, preference: seq<string>): (r: Option<string>)
    ensures r.Some? ==> r.value in names
  {
    if preference == [] then None
    else if FindLike(names, preference[0]).Some? then FindLike(names, preference[0])
    else FirstLike(names, preference[1..])
  }

  function PickFormat(available: seq<string>, wanted: Option<string>, preference: seq<string>): (r: Option<string>)
    ensures r.Some? ==> r.value in available
  {
    if wanted.Some? then FindLike(available, wanted.value)
    else if FirstLike(available, preference).Some? then FirstLike(available, preference)
    else if available == [] then None else Some(available[0])
  }

  function Asked(available: seq<string>, requested: seq<string>): (r: seq<string>)
    ensures forall n :: n in r ==> n in available
  {
    if available == [] then []
    else (if exists w :: w in requested && SameLetters(w, available[0]) then [available[0]] else [])
         + Asked(available[1..], requested)
  }

  function Standard(available: seq<string>, preferred: seq<string>): (r: seq<string>)
    ensures forall n :: n in r ==> n in available
  {
    if preferred == [] then []
    else (if FindLike(available, preferred[0]).Some? then [FindLike(available, preferred[0]).value] else [])
         + Standard(available, preferred[1..])
  }

  function WantedMaps(available: seq<string>, requested: seq<string>): (r: seq<string>)
    ensures forall n :: n in r ==> n in available
  {
    if requested != [] then Asked(available, requested)
    else if Standard(available, DEFAULT_MAPS) == [] then available else Standard(available, DEFAULT_MAPS)
  }

  function MapNames(names: seq<string>): (r: seq<string>)
    ensures forall n :: n in r <==> n in names && n !in FORMAT_KEYS
  {
    if names == [] then [] else (if names[0] in FORMAT_KEYS then [] else [names[0]]) + MapNames(names[1..])
  }

  function Rungs(keys: seq<string>): (r: seq<nat>)
    ensures forall p :: p in r <==> exists k :: k in keys && ParseLabel(k) == Some(p)
  {
    if keys == [] then []
    else
      assert forall k :: k in keys <==> k == keys[0] || k in keys[1..];
      (if ParseLabel(keys[0]).Some? then [ParseLabel(keys[0]).value] else []) + Rungs(keys[1..])
  }

  function NodeOf(listing: Object<Node>, name: string): Node
  {
    if Get(listing, name).Some? then Get(listing, name).value else []
  }

  function Offered(listing: Object<Node>, chosen: seq<string>): (r: seq<nat>)
    ensures forall p :: p in r <==> exists n :: n in chosen && p in Rungs(Keys(NodeOf(listing, n)))
  {
    if chosen == [] then []
    else
      assert forall n :: n in chosen <==> n == chosen[0] || n in chosen[1..];
      Rungs(Keys(NodeOf(listing, chosen[0]))) + Offered(listing, chosen[1..])
  }

  /** The file of one map at one resolution. */
  function FileAt(listing: Object<Node>, id: string, name: string, at: string, format: Option<string>): Option<Planned>
  {
    match Get(NodeOf(listing, name), at)
    case None => None
    case Some(shelf) =>
      match PickFormat(Keys(shelf), format, FORMATS)
      case None => None
      case Some(f) =>
        var entry := Get(shelf, f);
        if entry.None? || entry.value.None? then None
        else Some(Planned(entry.value.value.url, id + "_" + name + "_" + at + "." + f, name, entry.value.value.size))
  }

  function FilesAt(listing: Object<Node>, id: string, chosen: seq<string>, at: string, format: Option<string>): seq<Planned>
  {
    if chosen == [] then []
    else
      var last := FileAt(listing, id, chosen[|chosen| - 1], at, format);
      FilesAt(listing, id, chosen[..|chosen| - 1], at, format) + if last.Some? then [last.value] else []
  }

  function Chosen(listing: Object<Node>, requested: seq<string>): seq<string>
  {
    WantedMaps(MapNames(Keys(listing)), requested)
  }

  function TexturePlan(
    listing: Object<Node>, id: string, requested: seq<string>, wanted: Option<nat>, format: Option<string>): Plan
  {
    var chosen := Chosen(listing, requested);
    if chosen == [] then NoPlan(NoSuchMaps)
    else
      match Nearest(Offered(listing, chosen), wanted)
      case None => NoPlan(NoResolution)
      case Some(r) =>
        var files := FilesAt(listing, id, chosen, Label(r), format);
        if files == [] then NoPlan(NothingAt(Label(r))) else Plan(r, files)
  }

  /** The texture branch of `plan_files`. */
  method PlanFiles(listing: Object<Node>, id: string, requested: seq<string>, wanted: Option<nat>, format: Option<string>)
    returns (plan: Plan)
    ensures plan == TexturePlan(listing, id, requested, wanted, format)
  {
    hide FileAt, Label, Chosen, Offered, Nearest;
    var chosen := Chosen(listing, requested);
    if chosen == [] {
      return NoPlan(NoSuchMaps);
    }
    var resolution := Nearest(Offered(listing, chosen), wanted);
    if resolution.None? {
      return NoPlan(NoResolution);
    }
    var at := Label(resolution.value);
    var files := [];
    for i := 0 to |chosen|
      invariant files == FilesAt(listing, id, chosen[..i], at, format)
    {
      assert chosen[..i + 1][..i] == chosen[..i];
      var file := FileAt(listing, id, chosen[i], at, format);
      if file.None? {
        continue;
      }
      files := files + [file.value];
    }
    assert chosen[..|chosen|] == chosen;
    if files == [] {
      return NoPlan(NothingAt(at));
    }
    plan := Plan(resolution.value, files);
  }

  // ---------------------------------------------------------------------------
  // What is picked
  // ---------------------------------------------------------------------------

  /** A key gives the first entry under it. */
  lemma {:induction false} GetsTheFirst<V>(o: Object<V>, i: nat)
    requires i < |o| && forall j | 0 <= j < i :: o[j].0 != o[i].0
    ensures Get(o, o[i].0) == Some(o[i].1)
  {
    if i > 0 { GetsTheFirst(o[1..], i - 1); }
  }

  /** Names are compared without their case, and the first that is the same is taken. */
  lemma {:induction false} LikeIsTheFirst(names: seq<string>, wanted: string)
    ensures var r := FindLike(names, wanted);
            && (r.None? <==> forall i | 0 <= i < |names| :: Lower(names[i]) != Lower(wanted))
            && (r.Some? ==> exists i ::
                  && 0 <= i < |names| && names[i] == r.value && Lower(names[i]) == Lower(wanted)
                  && forall j | 0 <= j < i :: Lower(names[j]) != Lower(wanted))
  {
    hide Lower;
    if names != [] && Lower(names[0]) != Lower(wanted) {
      LikeIsTheFirst(names[1..], wanted);
      var rest := FindLike(names[1..], wanted);
      assert forall i | 0 < i < |names| :: names[i] == names[1..][i - 1];
      if rest.Some? {
        var i :| 0 <= i < |names| - 1 && names[1..][i] == rest.value && Lower(names[1..][i]) == Lower(wanted)
                 && forall j | 0 <= j < i :: Lower(names[1..][j]) != Lower(wanted);
        assert names[i + 1] == rest.value;
      }
    }
  }

  /** A format asked for is the one there is, or none. Without a wish it is the first of the preferred ones that is there, else
      the first there is. */
  lemma {:induction false} FormatIsPicked(available: seq<string>, wanted: Option<string>, preference: seq<string>)
    ensures wanted.Some? ==> PickFormat(available, wanted, preference) == FindLike(available, wanted.value)
    ensures wanted.None? ==>
              var r := PickFormat(available, wanted, preference);
              && (r.None? <==> available == [])
              && (forall k | 0 <= k < |preference| && FindLike(available, preference[k]).Some?
                             && (forall j | 0 <= j < k :: FindLike(available, preference[j]).None?) ::
                    r == FindLike(available, preference[k]))
              && (available != [] && (forall k | 0 <= k < |preference| :: FindLike(available, preference[k]).None?) ==>
                    r == Some(available[0]))
  {
    FirstLikeIsFirst(available, preference);
    hide FindLike;
    if available == [] {
      forall k | 0 <= k < |preference| ensures FindLike(available, preference[k]).None? {
        LikeIsTheFirst(available, preference[k]);
      }
    }
  }

  lemma {:induction false} FirstLikeIsFirst(names: seq<string>, preference: seq<string>)
    ensures var r := FirstLike(names, preference);
            && (r.None? <==> forall k | 0 <= k < |preference| :: FindLike(names, preference[k]).None?)
            && (forall k | 0 <= k < |preference| && FindLike(names, preference[k]).Some?
                           && (forall j | 0 <= j < k :: FindLike(names, preference[j]).None?) ::
                  r == FindLike(names, preference[k]))
  {
    hide FindLike;
    if preference != [] {
      FirstLikeIsFirst(names, preference[1..]);
      assert forall k | 0 < k < |preference| :: preference[k] == preference[1..][k - 1];
      if FindLike(names, preference[0]).None? {
        forall k | 0 <= k < |preference| && FindLike(names, preference[k]).Some?
                   && (forall j | 0 <= j < k :: FindLike(names, preference[j]).None?)
          ensures FirstLike(names, preference) == FindLike(names, preference[k]) {
          assert k > 0 && preference[1..][k - 1] == preference[k];
          assert forall j | 0 <= j < k - 1 :: preference[1..][j] == preference[j + 1];
        }
      }
    }
  }

  /** The maps a set offers for what is asked: each one asked for, in any case of letters; with nothing asked for, those of the
      usual six that are there, in their order, and all of them when none of the six is there. */
  lemma {:induction false} MapsAreChosen(available: seq<string>, requested: seq<string>)
    ensures requested != [] ==>
              forall n :: n in WantedMaps(available, requested) <==>
                n in available && exists w :: w in requested && Lower(w) == Lower(n)
    ensures requested == [] && Standard(available, DEFAULT_MAPS) != [] ==>
              WantedMaps(available, requested) == Standard(available, DEFAULT_MAPS)
    ensures requested == [] && Standard(available, DEFAULT_MAPS) == [] ==> WantedMaps(available, requested) == available
  {
    hide Lower, Standard;
    AskedExactlyWhen(available, requested);
  }

  /** A set's maps are its keys but those that name a format of a whole asset; with none asked for and none of the six there,
      all. */
  lemma ChosenExactlyWhen(listing: Object<Node>, requested: seq<string>, n: string)
    ensures requested != [] ==>
              (n in Chosen(listing, requested) <==>
                 n in Keys(listing) && n !in FORMAT_KEYS && exists w :: w in requested && Lower(w) == Lower(n))
    ensures requested == [] && Standard(MapNames(Keys(listing)), DEFAULT_MAPS) == [] ==>
              (n in Chosen(listing, requested) <==> n in Keys(listing) && n !in FORMAT_KEYS)
    ensures requested == [] && Standard(MapNames(Keys(listing)), DEFAULT_MAPS) != [] ==>
              Chosen(listing, requested) == Standard(MapNames(Keys(listing)), DEFAULT_MAPS)
  {
    MapsAreChosen(MapNames(Keys(listing)), requested);
    hide WantedMaps, Standard, Keys, Lower;
  }

  lemma {:induction false} AskedExactlyWhen(available: seq<string>, requested: seq<string>)
    ensures forall n :: n in Asked(available, requested) <==> n in available && exists w :: w in requested && Lower(w) == Lower(n)
  {
    hide Lower;
    if available != [] {
      AskedExactlyWhen(available[1..], requested);
      assert forall n :: n in available <==> n == available[0] || n in available[1..];
    }
  }

  lemma {:induction false} AskedInOrder(one: seq<string>, rest: seq<string>, requested: seq<string>)
    ensures Asked(one + rest, requested) == Asked(one, requested) + Asked(rest, requested)
  {
    if one == [] {
      assert one + rest == rest && Asked([], requested) == [];
    } else {
      AskedFirst(one, requested);
      AskedFirst(one + rest, requested);
      AskedInOrder(one[1..], rest, requested);
      hide Asked;
      assert (one + rest)[1..] == one[1..] + rest;
    }
  }

  lemma AskedFirst(available: seq<string>, requested: seq<string>)
    requires available != []
    ensures Asked(available, requested) == Asked([available[0]], requested) + Asked(available[1..], requested)
  {
    hide SameLetters;
    assert Asked([available[0]][1..], requested) == [];
  }

  lemma {:induction false} StandardInOrder(available: seq<string>, one: seq<string>, rest: seq<string>)
    ensures Standard(available, one + rest) == Standard(available, one) + Standard(available, rest)
  {
    if one == [] {
      assert one + rest == rest && Standard(available, []) == [];
    } else {
      StandardFirst(available, one);
      StandardFirst(available, one + rest);
      StandardInOrder(available, one[1..], rest);
      hide Standard;
      assert (one + rest)[1..] == one[1..] + rest;
    }
  }

  lemma StandardFirst(available: seq<string>, preferred: seq<string>)
    requires preferred != []
    ensures Standard(available, preferred) == Standard(available, [preferred[0]]) + Standard(available, preferred[1..])
  {
    hide FindLike;
    assert Standard(available, [preferred[0]][1..]) == [];
  }

  lemma StandardOfOne(available: seq<string>, p: string)
    ensures Standard(available, [p]) == match FindLike(available, p) case Some(n) => [n] case None => []
  {
    assert Standard(available, [p][1..]) == [];
  }

  /** A file is planned exactly when the map has a shelf at that label, with a format to pick there and an address under it. */
  lemma FileIsPlannedExactlyWhen(
    listing: Object<Node>, id: string, name: string, at: string, format: Option<string>, f: Planned)
    ensures FileAt(listing, id, name, at, format) == Some(f) <==>
              exists shelf: Shelf, k: string, leaf: Leaf ::
                && Get(NodeOf(listing, name), at) == Some(shelf) && PickFormat(Keys(shelf), format, FORMATS) == Some(k)
                && Get(shelf, k) == Some(Some(leaf))
                && f == Planned(leaf.url, id + "_" + name + "_" + at + "." + k, name, leaf.size)
  {
    hide Get, PickFormat, Keys, NodeOf;
  }

  /** The files come in the order of their maps, at most one for each. */
  lemma {:induction false} FilesInOrder(
    listing: Object<Node>, id: string, one: seq<string>, rest: seq<string>, at: string, format: Option<string>)
    ensures FilesAt(listing, id, one + rest, at, format)
         == FilesAt(listing, id, one, at, format) + FilesAt(listing, id, rest, at, format)
    decreases |rest|
  {
    hide FileAt;
    if rest == [] {
      assert one + rest == one;
    } else {
      FilesInOrder(listing, id, one, rest[..|rest| - 1], at, format);
      assert (one + rest)[..|one + rest| - 1] == one + rest[..|rest| - 1];
    }
  }

  lemma FileOfOne(listing: Object<Node>, id: string, n: string, at: string, format: Option<string>)
    ensures FilesAt(listing, id, [n], at, format) == match FileAt(listing, id, n, at, format) case Some(f) => [f] case None => []
  {
    hide FileAt;
    assert FilesAt(listing, id, [n][..0], at, format) == [];
  }

  /** Why there is no plan: no map to take, no resolution among those taken, or no file at the one chosen. */
  lemma NoPlanSaysWhy(
    listing: Object<Node>, id: string, requested: seq<string>, wanted: Option<nat>, format: Option<string>)
    ensures var plan, chosen := TexturePlan(listing, id, requested, wanted, format), Chosen(listing, requested);
            && (plan == NoPlan(NoSuchMaps) <==> chosen == [])
            && (plan == NoPlan(NoResolution) <==> chosen != [] && Offered(listing, chosen) == [])
            && (plan.NoPlan? && plan.why.NothingAt? <==>
                  && chosen != [] && Offered(listing, chosen) != []
                  && forall n, r | n in chosen && Nearest(Offered(listing, chosen), wanted) == Some(r) ::
                       FileAt(listing, id, n, Label(r), format).None?)
  {
    var chosen := Chosen(listing, requested);
    NearestIsTheRung(Offered(listing, chosen), wanted);
    hide FileAt, Label, Chosen, Offered, Nearest, FilesAt;
    match Nearest(Offered(listing, chosen), wanted)
    case None =>
    case Some(r) =>
      FilesComeFromMaps(listing, id, chosen, Label(r), format);
      var files := FilesAt(listing, id, chosen, Label(r), format);
      if files != [] { assert files[0] in files; }
  }

  lemma {:induction false} FilesComeFromMaps(
    listing: Object<Node>, id: string, chosen: seq<string>, at: string, format: Option<string>)
    ensures forall f :: f in FilesAt(listing, id, chosen, at, format) <==>
              exists n :: n in chosen && FileAt(listing, id, n, at, format) == Some(f)
  {
    hide FileAt;
    if chosen != [] {
      var front, last := chosen[..|chosen| - 1], chosen[|chosen| - 1];
      FilesComeFromMaps(listing, id, front, at, format);
      assert forall n :: n in chosen <==> n in front || n == last;
    }
  }

  /** Every file of a plan stands at the plan's one resolution, which is the rung nearest to the wish among those the
      chosen maps offer; each is the picked format of a chosen map there. */
  lemma PlanIsAtOneResolution(
    listing: Object<Node>, id: string, requested: seq<string>, wanted: Option<nat>, format: Option<string>)
    requires TexturePlan(listing, id, requested, wanted, format).Plan?
    ensures var plan, chosen := TexturePlan(listing, id, requested, wanted, format), Chosen(listing, requested);
            && Nearest(Offered(listing, chosen), wanted) == Some(plan.resolution)
            && plan.resolution in Offered(listing, chosen)
            && (forall f :: f in plan.files <==>
                  exists n :: n in chosen && FileAt(listing, id, n, Label(plan.resolution), format) == Some(f))
  {
    var chosen := Chosen(listing, requested);
    NearestIsTheRung(Offered(listing, chosen), wanted);
    var r := Nearest(Offered(listing, chosen), wanted).value;
    hide FileAt, Label, Chosen, Offered, Nearest, FilesAt;
    FilesComeFromMaps(listing, id, chosen, Label(r), format);
  }

  /** The chosen resolution is listed by some chosen map under the label it is looked up by exactly when some chosen map
      offers it under a canonical key. */
  lemma LabelIsThereExactlyWhenCanonical(listing: Object<Node>, chosen: seq<string>, r: nat)
    requires r in Offered(listing, chosen)
    ensures (exists n :: n in chosen && Get(NodeOf(listing, n), Label(r)).Some?) <==>
              exists n, k :: n in chosen && k in Keys(NodeOf(listing, n)) && ParseLabel(k) == Some(r) && Canonical(k)
  {
    var m :| m in chosen && r in Rungs(Keys(NodeOf(listing, m)));
    var some :| some in Keys(NodeOf(listing, m)) && ParseLabel(some) == Some(r);
    RungsAreLabels(some);
    LabelReadsBack(r);
    ReadPrintsBackExactlyWhenCanonical(Label(r));
    hide ParseLabel, Label, Canonical, Offered, Rungs;
    if n :| n in chosen && Get(NodeOf(listing, n), Label(r)).Some? {
      KeyIsThere(NodeOf(listing, n), Label(r));
      assert Label(r) in Keys(NodeOf(listing, n));
    }
    if n, k :| n in chosen && k in Keys(NodeOf(listing, n)) && ParseLabel(k) == Some(r) && Canonical(k) {
      ReadPrintsBackExactlyWhenCanonical(k);
      KeyIsThere(NodeOf(listing, n), k);
    }
  }

  lemma RungsAreLabels(s: string)
    requires ParseLabel(s).Some?
    ensures ParseLabel(s).value % 1024 == 0 && ParseLabel(s).value < U32
  {
    hide Lower, Trim, ParseU32;
  }

  lemma KeyIsThere<V>(o: Object<V>, key: string)
    ensures Get(o, key).Some? <==> key in Keys(o)
  {
    assert forall i | 0 <= i < |o| :: Keys(o)[i] == o[i].0;
  }

  /** Without the label in any chosen map there is no plan, though the resolution was found and chosen. */
  lemma {:induction false} NoLabelNoFiles(
    listing: Object<Node>, id: string, chosen: seq<string>, at: string, format: Option<string>)
    requires forall n | n in chosen :: Get(NodeOf(listing, n), at).None?
    ensures FilesAt(listing, id, chosen, at, format) == []
  {
    if chosen != [] { NoLabelNoFiles(listing, id, chosen[..|chosen| - 1], at, format); }
  }

  /** So a map that lists its only rung as "4K" cannot be had: its 4096 is offered, chosen, and then not found. */
  lemma CapitalLabelIsNotFound(id: string, wanted: Option<nat>, format: Option<string>, shelf: Shelf)
    ensures var listing: Object<Node> := [("Diffuse", [("4K", shelf)])];
            TexturePlan(listing, id, ["Diffuse"], wanted, format) == NoPlan(NothingAt(Label(4096)))
  {
    hide *;
    var node: Node := [("4K", shelf)];
    var listing: Object<Node> := [("Diffuse", node)];
    var chosen := ["Diffuse"];
    ChosenAlone(listing, node);
    OfferedAlone(listing, node);
    NotUnderTheSmallLetter(node);
    NearestIsTheRung([4096], wanted);
    assert forall n | n in chosen :: n == "Diffuse";
    NoLabelNoFiles(listing, id, chosen, Label(4096), format);
    NoFilesNoPlan(listing, id, ["Diffuse"], wanted, format, 4096);
  }

  lemma NotUnderTheSmallLetter(node: Node)
    requires |node| == 1 && node[0].0 == "4K"
    ensures Get(node, Label(4096)).None?
  {
    assert Label(4096)[|Label(4096)| - 1] == 'k';
  }

  lemma NoFilesNoPlan(
    listing: Object<Node>, id: string, requested: seq<string>, wanted: Option<nat>, format: Option<string>, r: nat)
    requires Chosen(listing, requested) != [] && Nearest(Offered(listing, Chosen(listing, requested)), wanted) == Some(r)
    requires FilesAt(listing, id, Chosen(listing, requested), Label(r), format) == []
    ensures TexturePlan(listing, id, requested, wanted, format) == NoPlan(NothingAt(Label(r)))
  {
    hide Chosen, Nearest, Offered, FilesAt, Label;
  }

  lemma ChosenAlone(listing: Object<Node>, node: Node)
    requires listing == [("Diffuse", node)]
    ensures Chosen(listing, ["Diffuse"]) == ["Diffuse"] && NodeOf(listing, "Diffuse") == node
  {
    var names := ["Diffuse"];
    assert Keys(listing) == names;
    assert "Diffuse"[0] == 'D' && FORMAT_KEYS == ["blend", "gltf", "fbx", "usd", "mtlx"];
    assert "Diffuse" !in FORMAT_KEYS;
    assert names[1..] == [];
    assert MapNames(names) == names;
    assert "Diffuse" in names && SameLetters("Diffuse", "Diffuse");
    assert Asked(names, names) == names;
  }

  lemma OfferedAlone(listing: Object<Node>, node: Node)
    requires NodeOf(listing, "Diffuse") == node && |node| == 1 && node[0].0 == "4K"
    ensures Offered(listing, ["Diffuse"]) == [4096]
  {
    CapitalFour();
    var keys := Keys(node);
    assert keys == ["4K"] && keys[1..] == [];
    assert Rungs(keys) == [4096] + Rungs([]);
    var chosen := ["Diffuse"];
    assert chosen[1..] == [] && Offered(listing, chosen) == Rungs(keys) + Offered(listing, []);
  }

  lemma CapitalFour()
    ensures ParseLabel("4K") == Some(4096)
  {
    TightStays("4K");
    assert Lower("4K") == "4k" by { assert "4K"[1..] == "K" && "K"[1..] == ""; }
    assert "4k"[..1] == "4" && "4"[..0] == "";
    assert Value("4") == 4;
  }
}
