/** Names a provider offers for files, and what of them is accepted. */
module FileNames {
  import opened Wrappers

  function Split(s: string, sep: char): (r: seq<string>)
    ensures |r| > 0
  {
    if s == "" then [""]
    else if s[0] == sep then [""] + Split(s[1..], sep)
    else
      var rest := Split(s[1..], sep);
      [[s[0]] + rest[0]] + rest[1..]
  }

  function Join(parts: seq<string>, sep: char): string
  {
    if parts == [] then "" else if |parts| == 1 then parts[0] else parts[0] + [sep] + Join(parts[1..], sep)
  }

  lemma {:induction false} SplitPlain(s: string, sep: char)
    requires sep !in s
    ensures Split(s, sep) == [s]
  {
    if s != "" {
      SplitPlain(s[1..], sep);
      assert s[0] in s && [s[0]] + s[1..] == s;
    }
  }

  lemma {:induction false} SplitAfter(a: string, b: string, sep: char)
    requires sep !in a
    ensures Split(a + [sep] + b, sep) == [a] + Split(b, sep)
  {
    if a == "" {
      assert ("" + [sep] + b)[1..] == b;
    } else {
      assert (a + [sep] + b)[1..] == a[1..] + [sep] + b;
      SplitAfter(a[1..], b, sep);
      assert a[0] in a && [a[0]] + a[1..] == a;
    }
  }

  /** Joining and splitting are inverse on parts without the separator. */
  lemma {:induction false} SplitUndoesJoin(parts: seq<string>, sep: char)
    requires parts != [] && forall p | p in parts :: sep !in p
    ensures Split(Join(parts, sep), sep) == parts
  {
    if |parts| == 1 {
      SplitPlain(parts[0], sep);
    } else {
      SplitUndoesJoin(parts[1..], sep);
      SplitAfter(parts[0], Join(parts[1..], sep), sep);
    }
  }

  lemma {:induction false} PartsHaveNoSeparator(s: string, sep: char)
    ensures forall p | p in Split(s, sep) :: sep !in p && forall c | c in p :: c in s
  {
    if s != "" { PartsHaveNoSeparator(s[1..], sep); }
  }

  /** The first part is what stands before the first separator; the last part ends the text. */
  lemma {:induction false} SplitEnds(s: string, sep: char)
    ensures s != "" && s[0] != sep ==> Split(s, sep)[0] != "" && Split(s, sep)[0][0] == s[0]
  {
  }

  /** White space, as the Unicode property has it. */
  predicate IsSpace(c: char)
  {
    var n := c as int;
    9 <= n <= 13 || n == 0x20 || n == 0x85 || n == 0xA0 || n == 0x1680 || 0x2000 <= n <= 0x200A
    || n == 0x2028 || n == 0x2029 || n == 0x202F || n == 0x205F || n == 0x3000
  }

  function TrimLeft(s: string): string
  {
    if s != "" && IsSpace(s[0]) then TrimLeft(s[1..]) else s
  }

  function TrimRight(s: string): string
  {
    if s != "" && IsSpace(s[|s| - 1]) then TrimRight(s[..|s| - 1]) else s
  }

  function Trim(s: string): string
  {
    TrimRight(TrimLeft(s))
  }

  ghost predicate Tight(s: string)
  {
    s != "" ==> !IsSpace(s[0]) && !IsSpace(s[|s| - 1])
  }

  lemma {:induction false} TrimLeftStarts(s: string)
    ensures var t := TrimLeft(s); (t != "" ==> !IsSpace(t[0])) && forall c | c in t :: c in s
  {
    if s != "" && IsSpace(s[0]) { TrimLeftStarts(s[1..]); }
  }

  lemma {:induction false} TrimRightEnds(s: string)
    ensures var t := TrimRight(s);
            && (t != "" ==> !IsSpace(t[|t| - 1]) && s != "" && t[0] == s[0])
            && (forall c | c in t :: c in s)
  {
    if s != "" && IsSpace(s[|s| - 1]) { TrimRightEnds(s[..|s| - 1]); }
  }

  lemma TrimIsTight(s: string)
    ensures Tight(Trim(s)) && forall c | c in Trim(s) :: c in s
  {
    TrimLeftStarts(s);
    TrimRightEnds(TrimLeft(s));
  }

  lemma TightStays(s: string)
    requires Tight(s)
    ensures Trim(s) == s
  {
  }

  // ---------------------------------------------------------------------------
  // The policy
  // ---------------------------------------------------------------------------

  predicate Alphanumeric(c: char)
  {
    'a' <= c <= 'z' || 'A' <= c <= 'Z' || '0' <= c <= '9'
  }

  predicate PlainChar(c: char)
  {
    Alphanumeric(c) || c == '.' || c == '_' || c == '-' || c == ' '
  }

  predicate DotDot(s: string)
  {
    exists i :: 0 <= i < |s| - 1 && s[i] == '.' && s[i + 1] == '.'
  }

  function Lower(s: string): string
  {
    if s == "" then ""
    else [if 'A' <= s[0] <= 'Z' then (s[0] as int - 'A' as int + 'a' as int) as char else s[0]] + Lower(s[1..])
  }

  /** What follows the last dot, unless nothing but that dot starts the name. */
  function Extension(name: string): Option<string>
  {
    var i := LastDot(name);
    if i <= 0 then None else Some(name[i + 1..])
  }

  function LastDot(s: string): (r: int)
    ensures -1 <= r < |s|
  {
    if s == "" then -1 else if s[|s| - 1] == '.' then |s| - 1 else LastDot(s[..|s| - 1])
  }

  const ALLOWED_EXTENSIONS: set<string> := {
    "png", "jpg", "jpeg", "webp", "tif", "tiff", "tga", "exr", "hdr",
    "blend", "gltf", "glb", "fbx", "obj", "mtl", "ply", "stl", "abc", "usd", "usda", "usdc", "usdz", "zip" }

  predicate ExtensionAllowed(name: string)
  {
    Extension(name).Some? && Lower(Extension(name).value) in ALLOWED_EXTENSIONS
  }

  function SafeFilename(candidate: string): (r: Option<string>)
    ensures r.Some? ==> r.value == Trim(candidate) && SafeName(r.value)
  {
    var name := Trim(candidate);
    if SafeName(name) then Some(name) else None
  }

  predicate SafeName(name: string)
  {
    && 1 <= |name| <= 128 && name[0] != '.'
    && !('/' in name || '\\' in name || '\0' in name || ':' in name || DotDot(name))
    && (forall i | 0 <= i < |name| :: PlainChar(name[i]))
    && ExtensionAllowed(name)
  }

  predicate SafeDirectory(part: string)
  {
    && 1 <= |part| <= 64 && part[0] != '.' && !DotDot(part)
    && forall i | 0 <= i < |part| :: PlainChar(part[i])
  }

  function Forward(s: string): string
  {
    if s == "" then "" else [if s[0] == '\\' then '/' else s[0]] + Forward(s[1..])
  }

  function NonEmpty(parts: seq<string>): (r: seq<string>)
    ensures forall p :: p in r <==> p in parts && p != ""
  {
    if parts == [] then [] else (if parts[0] == "" then [] else [parts[0]]) + NonEmpty(parts[1..])
  }

  /** The accepted parts of a relative path, if it is accepted. */
  function Parts(candidate: string): Option<seq<string>>
  {
    var normalised := Forward(Trim(candidate));
    if (normalised != "" && normalised[0] == '/') || ':' in normalised then None
    else Judged(NonEmpty(Split(normalised, '/')))
  }

  function Judged(components: seq<string>): Option<seq<string>>
  {
    if components == [] || |components| > 4 then None
    else
      var directories, last := components[..|components| - 1], SafeFilename(components[|components| - 1]);
      if (forall d | d in directories :: SafeDirectory(d)) && last.Some? then Some(directories + [last.value]) else None
  }

  /** `safe_relative_path`. */
  method SafeRelativePath(candidate: string) returns (r: Option<seq<string>>)
    ensures r == Parts(candidate)
  {
    var normalised := Forward(Trim(candidate));
    if (normalised != "" && normalised[0] == '/') || ':' in normalised {
      return None;
    }
    var components := NonEmpty(Split(normalised, '/'));
    if components == [] || |components| > 4 {
      return None;
    }
    var directories, last := components[..|components| - 1], components[|components| - 1];
    var parts := [];
    for i := 0 to |directories|
      invariant parts == directories[..i] && forall d | d in directories[..i] :: SafeDirectory(d)
    {
      if !SafeDirectory(directories[i]) {
        assert directories[i] in directories;
        return None;
      }
      parts := parts + [directories[i]];
    }
    assert directories[..|directories|] == directories;
    var name := SafeFilename(last);
    if name.None? {
      return None;
    }
    r := Some(parts + [name.value]);
  }

  /** What acceptance promises of the parts. */
  ghost predicate Accepted(parts: seq<string>)
  {
    && 1 <= |parts| <= 4
    && (forall i | 0 <= i < |parts| - 1 :: SafeDirectory(parts[i]))
    && SafeName(parts[|parts| - 1]) && Tight(parts[|parts| - 1]) && !IsSpace(parts[0][0])
  }

  lemma PlainHasNoSlash(s: string)
    requires forall i | 0 <= i < |s| :: PlainChar(s[i])
    ensures '/' !in s && '\\' !in s && ':' !in s
  {
  }

  lemma {:induction false} ForwardKeeps(s: string)
    ensures |Forward(s)| == |s| && '\\' !in Forward(s)
    ensures forall i | 0 <= i < |s| :: Forward(s)[i] == if s[i] == '\\' then '/' else s[i]
  {
    if s != "" { ForwardKeeps(s[1..]); }
  }

  lemma {:induction false} NonEmptyAll(parts: seq<string>)
    requires "" !in parts
    ensures NonEmpty(parts) == parts
  {
    if parts != [] {
      assert parts[0] in parts;
      NonEmptyAll(parts[1..]);
    }
  }

  lemma PartsAreAccepted(candidate: string)
    requires Parts(candidate).Some?
    ensures Accepted(Parts(candidate).value)
  {
    var trimmed := Trim(candidate);
    var normalised := Forward(trimmed);
    TrimIsTight(candidate);
    ForwardKeeps(trimmed);
    var all := Split(normalised, '/');
    var components := NonEmpty(all);
    NothingInNothing();
    SplitEnds(normalised, '/');
    assert components[0] == all[0] && !IsSpace(all[0][0]);
    TrimIsTight(components[|components| - 1]);
    var parts := Parts(candidate).value;
    forall i | 0 <= i < |parts| - 1 ensures SafeDirectory(parts[i]) { assert parts[i] in components[..|components| - 1]; }
    if |components| == 1 { TrimStart(components[0]); }
  }

  lemma NothingInNothing()
    ensures NonEmpty(Split("", '/')) == []
  {
    assert [""][1..] == [];
  }

  /** Trimming a text that does not start with a space keeps its start. */
  lemma TrimStart(s: string)
    requires s != "" && !IsSpace(s[0])
    ensures Trim(s) != "" ==> Trim(s)[0] == s[0]
  {
    TrimRightEnds(s);
  }

  /** Reading the joined parts again gives the same parts. */
  lemma JoinedPartsReadTheSame(candidate: string)
    requires Parts(candidate).Some?
    ensures Parts(Join(Parts(candidate).value, '/')) == Parts(candidate)
  {
    PartsAreAccepted(candidate);
    AcceptedReadsTheSame(Parts(candidate).value);
  }

  lemma AcceptedReadsTheSame(parts: seq<string>)
    requires Accepted(parts)
    ensures Parts(Join(parts, '/')) == Some(parts)
  {
    var text := Join(parts, '/');
    AcceptedIsPlain(parts);
    JoinEnds(parts);
    JoinChars(parts);
    TightStays(text);
    ForwardNothing(text);
    SplitUndoesJoin(parts, '/');
    NonEmptyAll(parts);
    AcceptedIsJudgedSo(parts);
  }

  lemma AcceptedIsJudgedSo(parts: seq<string>)
    requires Accepted(parts)
    ensures Judged(parts) == Some(parts)
  {
    TightStays(parts[|parts| - 1]);
    var directories := parts[..|parts| - 1];
    forall d | d in directories ensures SafeDirectory(d) {
      var i :| 0 <= i < |directories| && directories[i] == d;
      assert SafeDirectory(parts[i]);
    }
    assert directories + [parts[|parts| - 1]] == parts;
  }

  lemma AcceptedIsPlain(parts: seq<string>)
    requires Accepted(parts)
    ensures forall p | p in parts :: p != "" && p != "." && '/' !in p && '\\' !in p && ':' !in p
  {
    forall p | p in parts ensures p != "" && p != "." && '/' !in p && '\\' !in p && ':' !in p {
      var i :| 0 <= i < |parts| && parts[i] == p;
      if i < |parts| - 1 { assert SafeDirectory(parts[i]); }
      PlainHasNoSlash(p);
    }
  }

  lemma {:induction false} JoinEnds(parts: seq<string>)
    requires parts != [] && forall i | 0 <= i < |parts| :: parts[i] != ""
    ensures var t, last := Join(parts, '/'), parts[|parts| - 1];
            t != "" && t[0] == parts[0][0] && t[|t| - 1] == last[|last| - 1]
  {
    if |parts| > 1 { JoinEnds(parts[1..]); }
  }

  lemma {:induction false} JoinChars(parts: seq<string>)
    requires forall p | p in parts :: '\\' !in p && ':' !in p
    ensures '\\' !in Join(parts, '/') && ':' !in Join(parts, '/')
  {
    if |parts| > 1 { JoinChars(parts[1..]); }
  }

  lemma {:induction false} ForwardNothing(s: string)
    requires '\\' !in s
    ensures Forward(s) == s
  {
    if s != "" { ForwardNothing(s[1..]); }
  }

  /** No accepted file is the manifest, and none is the file another is fetched into before it is complete. */
  lemma NoCollisions(name: string, other: string)
    requires SafeName(name) && SafeName(other)
    ensures name != "manifest.json" && name + ".part" != other && name + ".part" != "manifest.json"
  {
    hide LastDot, Extension, Lower, DotDot, PlainChar;
    ExtensionOf(name, "part");
    ExtensionOf("manifest", "json");
    LowerStays("part");
    LowerStays("json");
    assert name + ".part" == name + "." + "part" && "manifest" + "." + "json" == "manifest.json";
    NotAllowed();
  }

  lemma NotAllowed()
    ensures "part" !in ALLOWED_EXTENSIONS && "json" !in ALLOWED_EXTENSIONS && "part" != "json"
  {
    assert "part"[0] != "json"[0];
    forall e | e in ALLOWED_EXTENSIONS ensures e != "part" && e != "json" {
      assert |e| == 4 ==> e[0] != 'p' && (e[0] == 'j' ==> e[1] == 'p');
    }
  }

  lemma ExtensionOf(name: string, ext: string)
    requires name != "" && '.' !in ext
    ensures Extension(name + "." + ext) == Some(ext)
  {
    LastDotAt(name, ext);
  }

  lemma {:induction false} LowerStays(s: string)
    requires forall i | 0 <= i < |s| :: !('A' <= s[i] <= 'Z')
    ensures Lower(s) == s
  {
    if s != "" { LowerStays(s[1..]); }
  }

  lemma {:induction false} LastDotAt(name: string, ext: string)
    requires '.' !in ext
    ensures LastDot(name + "." + ext) == |name| && (name + "." + ext)[|name| + 1..] == ext
    decreases |ext|
  {
    var whole := name + "." + ext;
    if ext != "" {
      LastDotAt(name, ext[..|ext| - 1]);
      assert whole[..|whole| - 1] == name + "." + ext[..|ext| - 1];
    }
  }

  // ---------------------------------------------------------------------------
  // What is accepted, letter by letter
  // ---------------------------------------------------------------------------

  const SMALL_LETTERS: set<char> :=
    {'a', 'b', 'c', 'd', 'e', 'f', 'g', 'h', 'i', 'j', 'k', 'l', 'm',
     'n', 'o', 'p', 'q', 'r', 's', 't', 'u', 'v', 'w', 'x', 'y', 'z'}

  const CAPITALS: set<char> :=
    {'A', 'B', 'C', 'D', 'E', 'F', 'G', 'H', 'I', 'J', 'K', 'L', 'M',
     'N', 'O', 'P', 'Q', 'R', 'S', 'T', 'U', 'V', 'W', 'X', 'Y', 'Z'}

  const DIGITS: set<char> := {'0', '1', '2', '3', '4', '5', '6', '7', '8', '9'}

  const LETTERS: set<char> := SMALL_LETTERS + CAPITALS + DIGITS

  const SMALL: map<char, char> := map[
    'A' := 'a', 'B' := 'b', 'C' := 'c', 'D' := 'd', 'E' := 'e', 'F' := 'f', 'G' := 'g', 'H' := 'h',
    'I' := 'i', 'J' := 'j', 'K' := 'k', 'L' := 'l', 'M' := 'm', 'N' := 'n', 'O' := 'o', 'P' := 'p',
    'Q' := 'q', 'R' := 'r', 'S' := 's', 'T' := 't', 'U' := 'u', 'V' := 'v', 'W' := 'w', 'X' := 'x',
    'Y' := 'y', 'Z' := 'z']

  lemma OneByOne(c: char)
    ensures 'a' <= c <= 'z' <==> c in SMALL_LETTERS
    ensures 'A' <= c <= 'Z' <==> c in CAPITALS
    ensures '0' <= c <= '9' <==> c in DIGITS
  {
    assert 'a' <= c <= 'z' <==> c in SMALL_LETTERS by {
      assert c == c as int as char;
    }
    assert 'A' <= c <= 'Z' <==> c in CAPITALS by {
      assert c == c as int as char;
    }
    assert '0' <= c <= '9' <==> c in DIGITS by {
      assert c == c as int as char;
    }
  }

  lemma AlphanumericExactlyWhen(c: char)
    ensures Alphanumeric(c) <==> c in LETTERS
  {
    OneByOne(c);
    hide SMALL_LETTERS, CAPITALS, DIGITS;
  }

  /** The code points with the property, one by one. */
  const SPACES: set<int> := {
    9, 10, 11, 12, 13, 32, 133, 160, 5760, 8192, 8193, 8194, 8195, 8196, 8197, 8198, 8199, 8200, 8201, 8202,
    8232, 8233, 8239, 8287, 12288 }

  lemma IsSpaceExactlyWhen(c: char)
    ensures IsSpace(c) <==> c as int in SPACES
  {
  }

  lemma DotDotExactlyWhen(s: string)
    ensures DotDot(s) <==> exists a, b :: s == a + ".." + b
  {
    if DotDot(s) {
      var i :| 0 <= i < |s| - 1 && s[i] == '.' && s[i + 1] == '.';
      assert s == s[..i] + ".." + s[i + 2..];
    }
    if exists a, b :: s == a + ".." + b {
      var a, b :| s == a + ".." + b;
      assert s[|a|] == '.' && s[|a| + 1] == '.';
    }
  }

  /** Letter for letter: capitals become small, and nothing else changes. */
  lemma {:induction false} LowerLetterForLetter(s: string, i: nat)
    requires i < |s|
    ensures |Lower(s)| == |s|
    ensures Lower(s)[i] == if s[i] in SMALL then SMALL[s[i]] else s[i]
  {
    SmallOf(s[0]);
    hide SMALL;
    if i > 0 { LowerLetterForLetter(s[1..], i - 1); } else { LowerSize(s[1..]); }
  }

  lemma SmallOf(c: char)
    ensures (if c in SMALL then SMALL[c] else c) == if 'A' <= c <= 'Z' then (c as int - 'A' as int + 'a' as int) as char else c
  {
  }

  lemma {:induction false} LowerSize(s: string)
    ensures |Lower(s)| == |s|
  {
    if s != "" { LowerSize(s[1..]); }
  }

  lemma {:induction false} LastDotIsLast(s: string)
    ensures var i := LastDot(s); (i >= 0 ==> s[i] == '.') && forall k | i < k < |s| :: s[k] != '.'
  {
    if s != "" && s[|s| - 1] != '.' { LastDotIsLast(s[..|s| - 1]); }
  }

  lemma ExtensionStands(name: string, stem: string, e: string)
    requires '.' !in e && stem != "" && name == stem + "." + e
    ensures Extension(name) == Some(e)
  {
    var i := LastDot(name);
    LastDotIsLast(name);
    assert name[|stem|] == '.';
    assert forall k | |stem| < k < |name| :: name[k] == e[k - |stem| - 1] && name[k] in e;
    assert name[i + 1..] == e;
  }

  /** A name has an extension exactly when a dot stands somewhere after its first letter; it is what follows the last one. */
  lemma ExtensionExactlyWhen(name: string, e: string)
    ensures Extension(name) == Some(e) <==> '.' !in e && exists stem :: stem != "" && name == stem + "." + e
  {
    if Extension(name) == Some(e) {
      var i := LastDot(name);
      LastDotIsLast(name);
      assert name == name[..i] + "." + e;
    }
    if '.' !in e && exists stem :: stem != "" && name == stem + "." + e {
      var stem :| stem != "" && name == stem + "." + e;
      ExtensionStands(name, stem, e);
    }
  }

  /** What a trim takes off is white space, at both ends, and all of it. */
  lemma TrimTakesSpace(s: string) returns (before: string, after: string)
    ensures s == before + Trim(s) + after && Tight(Trim(s))
    ensures forall c | c in before || c in after :: IsSpace(c)
  {
    TrimIsTight(s);
    before := LeftTakesSpace(s);
    after := RightTakesSpace(TrimLeft(s));
    assert before + (Trim(s) + after) == before + Trim(s) + after;
  }

  lemma {:induction false} LeftTakesSpace(s: string) returns (before: string)
    ensures s == before + TrimLeft(s) && forall c | c in before :: IsSpace(c)
  {
    if s != "" && IsSpace(s[0]) {
      before := LeftTakesSpace(s[1..]);
      before := [s[0]] + before;
    } else {
      before := "";
    }
  }

  lemma {:induction false} RightTakesSpace(s: string) returns (after: string)
    ensures s == TrimRight(s) + after && forall c | c in after :: IsSpace(c)
  {
    if s != "" && IsSpace(s[|s| - 1]) {
      after := RightTakesSpace(s[..|s| - 1]);
      after := after + [s[|s| - 1]];
    } else {
      after := "";
    }
  }

  /** A plain name of at most `n` letters, digits, dots, underscores, dashes and spaces that starts with no dot and leads nowhere
      upwards. */
  ghost predicate PlainName(name: string, n: nat)
  {
    && name != "" && |name| <= n && name[0] != '.' && (forall a, b :: name != a + ".." + b)
    && forall c | c in name :: c in LETTERS || c in "._- "
  }

  lemma PlainCharExactlyWhen(c: char)
    ensures PlainChar(c) <==> c in LETTERS || c in "._- "
  {
    AlphanumericExactlyWhen(c);
  }

  /** A file name is accepted exactly when it is plain and ends in one of the extensions allowed, in any case of letters. */
  lemma NameIsSafeExactlyWhen(name: string)
    ensures SafeName(name) <==>
              && PlainName(name, 128)
              && exists stem, e :: stem != "" && '.' !in e && name == stem + "." + e && Lower(e) in ALLOWED_EXTENSIONS
  {
    DotDotExactlyWhen(name);
    forall c ensures PlainChar(c) <==> c in LETTERS || c in "._- " { PlainCharExactlyWhen(c); }
    hide PlainChar, DotDot;
    ExtensionRules(name);
    hide Extension, ExtensionAllowed;
    assert forall c | c in name :: exists i :: 0 <= i < |name| && name[i] == c;
    assert SafeName(name) ==> PlainName(name, 128);
    NoSeparators(name);
  }

  lemma NoSeparators(name: string)
    ensures PlainName(name, 128) ==> !('/' in name || '\\' in name || '\0' in name || ':' in name)
  {
    forall c | c in ['/', '\\', '\0', ':'] ensures c !in LETTERS && c !in "._- " {
      AlphanumericExactlyWhen(c);
    }
  }

  lemma ExtensionRules(name: string)
    ensures ExtensionAllowed(name) <==>
              exists stem, e :: stem != "" && '.' !in e && name == stem + "." + e && Lower(e) in ALLOWED_EXTENSIONS
  {
    hide Extension, Lower;
    if ExtensionAllowed(name) {
      ExtensionExactlyWhen(name, Extension(name).value);
    }
    if exists stem, e :: stem != "" && '.' !in e && name == stem + "." + e && Lower(e) in ALLOWED_EXTENSIONS {
      var stem, e :| stem != "" && '.' !in e && name == stem + "." + e && Lower(e) in ALLOWED_EXTENSIONS;
      ExtensionExactlyWhen(name, e);
    }
  }

  /** A directory's name, exactly when it is plain and no longer than 64. */
  lemma DirectoryIsSafeExactlyWhen(part: string)
    ensures SafeDirectory(part) <==> PlainName(part, 64)
  {
    DotDotExactlyWhen(part);
    forall c ensures PlainChar(c) <==> c in LETTERS || c in "._- " { PlainCharExactlyWhen(c); }
    hide PlainChar, DotDot;
  }
}
