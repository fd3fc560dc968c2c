/** Stable ids: looking data-blocks up by id through a cache that may be stale. */
module Ids {
  import opened Wrappers

  /** `handle` is the block itself; `id` is "" while it carries none. */
  datatype Block = Block(handle: nat, name: string, id: string)

  type Kind = string

  type Index = map<string, string>

  datatype Answer = Found(block: Block) | Nothing | NotFound | EmptyReference | UnknownKind

  ghost predicate Holds(blocks: seq<Block>, id: string)
  {
    exists b :: b in blocks && b.id == id
  }

  ghost predicate UniqueNames(blocks: seq<Block>)
  {
    forall i, j | 0 <= i < j < |blocks| :: blocks[i].name != blocks[j].name
  }

  ghost predicate UniqueIds(blocks: seq<Block>)
  {
    forall i, j | 0 <= i < j < |blocks| && blocks[i].id != "" :: blocks[i].id != blocks[j].id
  }

  /** Two blocks of one name are possible when one is linked in from a library; the first is what a name gets. */
  function FirstNamed(blocks: seq<Block>, name: string): (r: Option<Block>)
    ensures r.None? <==> forall b | b in blocks :: b.name != name
    ensures r.Some? ==> r.value in blocks && r.value.name == name
  {
    if blocks == [] then None else if blocks[0].name == name then Some(blocks[0]) else FirstNamed(blocks[1..], name)
  }

  lemma {:induction false} UniqueNameGetsIt(blocks: seq<Block>, b: Block)
    requires UniqueNames(blocks) && b in blocks
    ensures FirstNamed(blocks, b.name) == Some(b)
  {
    if blocks[0].name == b.name {
      var k :| 0 <= k < |blocks| && blocks[k] == b;
    } else {
      UniqueNameGetsIt(blocks[1..], b);
    }
  }

  /** id -> name, a later block overwriting an earlier one. */
  function IndexOf(blocks: seq<Block>): (r: Index)
    ensures forall id | id in r :: id != ""
  {
    if blocks == [] then map[]
    else
      var last, front := blocks[|blocks| - 1], IndexOf(blocks[..|blocks| - 1]);
      if last.id == "" then front else front[last.id := last.name]
  }

  /** The last block that carries an id. */
  ghost function LastWith(blocks: seq<Block>, id: string): (r: Option<Block>)
    ensures r.Some? <==> Holds(blocks, id)
    ensures r.Some? ==> r.value in blocks && r.value.id == id
  {
    if blocks == [] then None
    else
      var last := blocks[|blocks| - 1];
      assert forall b :: b in blocks <==> b in blocks[..|blocks| - 1] || b == last;
      if last.id == id then Some(last) else LastWith(blocks[..|blocks| - 1], id)
  }

  lemma {:induction false} IndexMeans(blocks: seq<Block>, id: string)
    requires id != ""
    ensures id in IndexOf(blocks) <==> LastWith(blocks, id).Some?
    ensures id in IndexOf(blocks) ==> IndexOf(blocks)[id] == LastWith(blocks, id).value.name
  {
    if blocks != [] { IndexMeans(blocks[..|blocks| - 1], id); }
  }

  lemma OnlyCarrier(blocks: seq<Block>, b: Block)
    requires UniqueIds(blocks) && b in blocks && b.id != ""
    ensures LastWith(blocks, b.id) == Some(b)
  {
    var r := LastWith(blocks, b.id).value;
    var i :| 0 <= i < |blocks| && blocks[i] == b;
    var j :| 0 <= j < |blocks| && blocks[j] == r;
  }

  // ---------------------------------------------------------------------------
  // Looking an id up
  // ---------------------------------------------------------------------------

  function Hit(blocks: seq<Block>, index: Index, id: string): Option<Block>
  {
    if id in index then FirstNamed(blocks, index[id]) else None
  }

  function Carries(b: Option<Block>, id: string): bool
  {
    b.Some? && b.value.id == id
  }

  /** An empty index is as good as none and is built anew. */
  function Opened(blocks: seq<Block>, cached: Index): Index
  {
    if cached == map[] then IndexOf(blocks) else cached
  }

  function CacheAfter(blocks: seq<Block>, cached: Index, id: string): Index
  {
    if Carries(Hit(blocks, Opened(blocks, cached), id), id) then Opened(blocks, cached) else IndexOf(blocks)
  }

  /** What `find` gives for an id, whatever the cache holds. */
  function ById(blocks: seq<Block>, cached: Index, readonly: map<string, Block>, id: string): Option<Block>
  {
    var first := Hit(blocks, Opened(blocks, cached), id);
    if Carries(first, id) then first
    else
      var second := Hit(blocks, IndexOf(blocks), id);
      if second.Some? then second else if id in readonly then Some(readonly[id]) else None
  }

  function Reply(found: Option<Block>, required: bool): Answer
  {
    if found.Some? then Found(found.value) else if required then NotFound else Nothing
  }

  /** The first block with the name of the last block that carries the id carries that id. */
  ghost predicate NameLeadsBack(blocks: seq<Block>, id: string)
  {
    Holds(blocks, id) ==> Carries(FirstNamed(blocks, LastWith(blocks, id).value.name), id)
  }

  lemma HeldIdIsAnswered(blocks: seq<Block>, cached: Index, readonly: map<string, Block>, id: string)
    requires id != "" && Holds(blocks, id)
    ensures ById(blocks, cached, readonly, id).Some? && ById(blocks, cached, readonly, id).value in blocks
    ensures Carries(ById(blocks, cached, readonly, id), id) <==>
              Carries(Hit(blocks, Opened(blocks, cached), id), id) || NameLeadsBack(blocks, id)
  {
    IndexMeans(blocks, id);
  }

  /** A held id is always answered with a block of the collection. With every cache, however stale, that block carries
      the id exactly when names lead back to it: the block found after a rescan is not looked at again. */
  lemma HeldIdIsFoundExactlyWhenItsNameLeadsBack(blocks: seq<Block>, readonly: map<string, Block>, id: string)
    requires id != "" && Holds(blocks, id)
    ensures (forall cached :: Carries(ById(blocks, cached, readonly, id), id)) <==> NameLeadsBack(blocks, id)
  {
    forall cached ensures NameLeadsBack(blocks, id) ==> Carries(ById(blocks, cached, readonly, id), id) {
      HeldIdIsAnswered(blocks, cached, readonly, id);
    }
    HeldIdIsAnswered(blocks, map[], readonly, id);
    IndexMeans(blocks, id);
    assert Carries(ById(blocks, map[], readonly, id), id) <==> NameLeadsBack(blocks, id);
  }

  /** A local block and a linked one of the same name: asking for the linked one's id gets the local one. */
  lemma SharedNameGetsTheWrongBlock(id: string, other: string)
    requires id != "" && other != id
    ensures var blocks := [Block(0, "Cube", other), Block(1, "Cube", id)];
            forall cached, readonly :: ById(blocks, cached, readonly, id) == Some(blocks[0])
  {
    var blocks := [Block(0, "Cube", other), Block(1, "Cube", id)];
    assert blocks[1] in blocks;
    assert LastWith(blocks, id) == Some(blocks[1]);
    IndexMeans(blocks, id);
    forall name ensures FirstNamed(blocks, name) == (if name == "Cube" then Some(blocks[0]) else None) {
      assert blocks[1..] == [blocks[1]] && blocks[1..][1..] == [];
    }
  }

  /** What a full scan of the collection would answer. */
  ghost function Scan(blocks: seq<Block>, readonly: map<string, Block>, id: string): Option<Block>
  {
    if Holds(blocks, id) then var b :| b in blocks && b.id == id; Some(b)
    else if id in readonly then Some(readonly[id]) else None
  }

  /** With unique names and ids the cached lookup is a full scan, however stale the cache. */
  lemma CachedLookupIsAScan(blocks: seq<Block>, cached: Index, readonly: map<string, Block>, id: string)
    requires id != "" && UniqueNames(blocks) && UniqueIds(blocks)
    ensures ById(blocks, cached, readonly, id) == Scan(blocks, readonly, id)
  {
    IndexMeans(blocks, id);
    if Holds(blocks, id) {
      var b := Scan(blocks, readonly, id).value;
      OnlyCarrier(blocks, b);
      UniqueNameGetsIt(blocks, b);
      var r := ById(blocks, cached, readonly, id);
      HeldIdIsAnswered(blocks, cached, readonly, id);
      OnlyCarrier(blocks, r.value);
    } else {
      assert !Carries(Hit(blocks, Opened(blocks, cached), id), id);
    }
  }

  // ---------------------------------------------------------------------------
  // The module's state
  // ---------------------------------------------------------------------------

  /** What a reference resolves to; `looksLikeUuid` is the parser of the standard library. */
  function Resolved(
    looksLikeUuid: string -> bool, data: map<Kind, seq<Block>>, cache: map<Kind, Index>, readonly: map<string, Block>,
    kind: Kind, reference: string, required: bool): Answer
  {
    if reference == "" then EmptyReference
    else if kind !in data then UnknownKind
    else if looksLikeUuid(reference) then Reply(ById(data[kind], Cached(cache, kind), readonly, reference), required)
    else Reply(FirstNamed(data[kind], reference), required)
  }

  function Cached(cache: map<Kind, Index>, kind: Kind): Index
  {
    if kind in cache then cache[kind] else map[]
  }

  class IdTable {
    const looksLikeUuid: string -> bool
    var data: map<Kind, seq<Block>>
    var cache: map<Kind, Index>
    var readonly: map<string, Block>

    constructor (looksLikeUuid: string -> bool, data: map<Kind, seq<Block>>)
      ensures this.looksLikeUuid == looksLikeUuid && this.data == data && cache == map[] && readonly == map[]
    {
      this.looksLikeUuid, this.data, cache, readonly := looksLikeUuid, data, map[], map[];
    }

    /** `_rebuild`. */
    method Rebuild(kind: Kind) returns (index: Index)
      requires kind in data
      modifies this`cache
      ensures index == IndexOf(data[kind]) && cache == old(cache)[kind := index]
    {
      index := map[];
      var blocks := data[kind];
      for i := 0 to |blocks|
        invariant index == IndexOf(blocks[..i])
      {
        assert blocks[..i + 1][..i] == blocks[..i];
        if blocks[i].id != "" {
          index := index[blocks[i].id := blocks[i].name];
        }
      }
      assert blocks[..|blocks|] == blocks;
      cache := cache[kind := index];
    }

    method Find(kind: Kind, reference: string, required: bool) returns (r: Answer)
      modifies this`cache
      ensures r == Resolved(looksLikeUuid, data, old(cache), readonly, kind, reference, required)
      ensures cache == if r.EmptyReference? || r.UnknownKind? || !looksLikeUuid(reference) then old(cache)
                       else
                         var held := if kind in old(cache) then old(cache)[kind] else map[];
                         old(cache)[kind := CacheAfter(data[kind], held, reference)]
      ensures World(data, cache, readonly) ==
                Next(looksLikeUuid, World(old(data), old(cache), old(readonly)), Ask(kind, reference, required))
    {
      if reference == "" {
        return EmptyReference;
      }
      if kind !in data {
        return UnknownKind;
      }
      var blocks := data[kind];
      if looksLikeUuid(reference) {
        var index := if kind in cache then cache[kind] else map[];
        if index == map[] {
          index := Rebuild(kind);
        }
        var found := if reference in index then FirstNamed(blocks, index[reference]) else None;
        if found.None? || found.value.id != reference {
          index := Rebuild(kind);
          found := if reference in index then FirstNamed(blocks, index[reference]) else None;
        }
        if found.None? && reference in readonly {
          found := Some(readonly[reference]);
        }
        return Reply(found, required);
      }
      r := Reply(FirstNamed(blocks, reference), required);
    }

    method InvalidateCache(kind: Option<Kind>)
      modifies this`cache
      ensures cache == if kind.None? then map[] else old(cache) - {kind.value}
      ensures World(data, cache, readonly) ==
                Next(looksLikeUuid, World(old(data), old(cache), old(readonly)), Invalidate(kind))
    {
      if kind.None? { cache := map[]; } else { cache := cache - {kind.value}; }
    }

    /** `ensure_id`. `fresh_` is the generated id, `derived` the one a read-only block gets from its library and name. */
    method EnsureId(kind: Kind, i: nat, fresh_: string, writable: bool, linked: bool, derived: string)
      returns (r: Option<string>)
      requires kind in data && i < |data[kind]|
      modifies this`data, this`readonly
      ensures var b := old(data)[kind][i];
              && r == (if b.id != "" then Some(b.id) else if writable then Some(fresh_)
                       else if linked then Some(derived) else None)
              && data == (if b.id == "" && writable then old(data)[kind := Named(old(data)[kind], i, fresh_)] else old(data))
              && readonly == (if b.id == "" && !writable then old(readonly)[derived := b] else old(readonly))
    {
      var b := data[kind][i];
      if b.id != "" {
        return Some(b.id);
      }
      if writable {
        data := data[kind := Named(data[kind], i, fresh_)];
        return Some(fresh_);
      }
      readonly := readonly[derived := b];
      if !linked {
        return None;
      }
      r := Some(derived);
    }
  }

  /** What an asking is told, where names and ids are unique: the block of that id, or name; a read-only block kept under that
      id; or that there is none, as an error exactly when one was required. */
  lemma AskingTells(
    looksLikeUuid: string -> bool, data: map<Kind, seq<Block>>, cache: map<Kind, Index>, readonly: map<string, Block>,
    kind: Kind, reference: string, required: bool)
    requires kind in data && UniqueNames(data[kind]) && UniqueIds(data[kind])
    ensures var r := Resolved(looksLikeUuid, data, cache, readonly, kind, reference, required);
            var uuid := looksLikeUuid(reference);
            && (r.EmptyReference? <==> reference == "") && !r.UnknownKind?
            && (reference != "" ==>
                  && (forall b | b in data[kind] && reference == (if uuid then b.id else b.name) :: r == Found(b))
                  && ((forall b | b in data[kind] :: reference != if uuid then b.id else b.name) ==>
                        r == if uuid && reference in readonly then Found(readonly[reference])
                             else if required then NotFound else Nothing))
  {
    hide ById, UniqueNames, UniqueIds;
    if reference != "" {
      if looksLikeUuid(reference) {
        CachedLookupIsAScan(data[kind], Cached(cache, kind), readonly, reference);
        forall b | b in data[kind] && b.id == reference ensures Scan(data[kind], readonly, reference) == Some(b) {
          ScanFinds(data[kind], readonly, b);
        }
      } else {
        forall b | b in data[kind] && b.name == reference ensures FirstNamed(data[kind], reference) == Some(b) {
          UniqueNameGetsIt(data[kind], b);
        }
      }
    }
  }

  /** What a lookup by id leaves in the cache: the very index it found there when that led to a block with the id, and
      otherwise the index of the collection as it is. */
  lemma LookupLeaves(blocks: seq<Block>, cached: Index, id: string)
    requires id != ""
    ensures var led := id in cached && exists b :: FirstNamed(blocks, cached[id]) == Some(b) && b.id == id;
            && (led ==> CacheAfter(blocks, cached, id) == cached)
            && (!led ==> forall i | i != "" ::
                  match LastWith(blocks, i)
                  case None => i !in CacheAfter(blocks, cached, id)
                  case Some(b) => i in CacheAfter(blocks, cached, id) && CacheAfter(blocks, cached, id)[i] == b.name)
  {
    forall i | i != "" ensures i in IndexOf(blocks) <==> LastWith(blocks, i).Some?
                       ensures i in IndexOf(blocks) ==> IndexOf(blocks)[i] == LastWith(blocks, i).value.name {
      IndexMeans(blocks, i);
    }
    hide IndexOf, LastWith, FirstNamed;
  }

  function Named(blocks: seq<Block>, i: nat, id: string): seq<Block>
    requires i < |blocks|
  {
    blocks[i := blocks[i].(id := id)]
  }

  /** A fresh id keeps ids unique and leads back to its block, however stale the cache. */
  lemma FreshIdLeadsBack(
    blocks: seq<Block>, i: nat, fresh_: string, cached: Index, readonly: map<string, Block>)
    requires UniqueNames(blocks) && UniqueIds(blocks) && i < |blocks| && blocks[i].id == ""
    requires fresh_ != "" && !Holds(blocks, fresh_)
    ensures var now := Named(blocks, i, fresh_);
            && UniqueNames(now) && UniqueIds(now) && ById(now, cached, readonly, fresh_) == Some(now[i])
            && (forall id | id != "" && Holds(blocks, id) ::
                  ById(now, cached, readonly, id) == ById(blocks, cached, readonly, id))
  {
    var now := Named(blocks, i, fresh_);
    forall k, j | 0 <= k < j < |now| && now[k].id != "" ensures now[k].id != now[j].id {
      assert blocks[k] in blocks && blocks[j] in blocks;
    }
    assert now[i] in now;
    ScanFinds(now, readonly, now[i]);
    CachedLookupIsAScan(now, cached, readonly, fresh_);
    forall id | id != "" && Holds(blocks, id)
      ensures ById(now, cached, readonly, id) == ById(blocks, cached, readonly, id)
    {
      var b :| b in blocks && b.id == id;
      var k :| 0 <= k < |blocks| && blocks[k] == b;
      assert now[k] == b;
      ScanFinds(now, readonly, b);
      ScanFinds(blocks, readonly, b);
      CachedLookupIsAScan(now, cached, readonly, id);
      CachedLookupIsAScan(blocks, cached, readonly, id);
    }
  }

  lemma ScanFinds(blocks: seq<Block>, readonly: map<string, Block>, b: Block)
    requires UniqueIds(blocks) && b in blocks && b.id != ""
    ensures Scan(blocks, readonly, b.id) == Some(b)
  {
    OnlyCarrier(blocks, b);
    OnlyCarrier(blocks, Scan(blocks, readonly, b.id).value);
  }

  /** A block is found again by the id it carries exactly when that id can be told from a name, or is its name. */
  lemma FoundByItsIdExactlyWhenUuid(
    looksLikeUuid: string -> bool, data: map<Kind, seq<Block>>, cache: map<Kind, Index>, readonly: map<string, Block>,
    kind: Kind, b: Block)
    requires kind in data && b in data[kind] && b.id != "" && UniqueNames(data[kind]) && UniqueIds(data[kind])
    ensures Resolved(looksLikeUuid, data, cache, readonly, kind, b.id, true) == Found(b) <==>
              looksLikeUuid(b.id) || b.name == b.id
  {
    ScanFinds(data[kind], readonly, b);
    CachedLookupIsAScan(data[kind], Cached(cache, kind), readonly, b.id);
    if b.name == b.id { UniqueNameGetsIt(data[kind], b); }
  }

  // ---------------------------------------------------------------------------
  // Any history
  // ---------------------------------------------------------------------------

  /** What can happen between lookups: the collection of a kind becomes anything at all, or cached entries go. */
  datatype Event =
    | Edit(kind: Kind, blocks: seq<Block>)
    | Invalidate(which: Option<Kind>)
    | Keep(id: string, block: Block)
    | Ask(kind: Kind, reference: string, required: bool)

  datatype World = World(data: map<Kind, seq<Block>>, cache: map<Kind, Index>, readonly: map<string, Block>)

  function Next(looksLikeUuid: string -> bool, w: World, e: Event): World
  {
    match e
    case Edit(kind, blocks) => w.(data := w.data[kind := blocks])
    case Invalidate(which) => w.(cache := if which.None? then map[] else w.cache - {which.value})
    case Keep(id, block) => w.(readonly := w.readonly[id := block])
    case Ask(kind, reference, _) =>
      if reference != "" && kind in w.data && looksLikeUuid(reference) then
        w.(cache := w.cache[kind := CacheAfter(w.data[kind], Cached(w.cache, kind), reference)])
      else w
  }

  /** The answers, in order, of everything asked. */
  function Answers(looksLikeUuid: string -> bool, w: World, events: seq<Event>): seq<Answer>
    decreases |events|
  {
    if events == [] then []
    else
      (if events[0].Ask? then
         [Resolved(looksLikeUuid, w.data, w.cache, w.readonly, events[0].kind, events[0].reference, events[0].required)]
       else [])
      + Answers(looksLikeUuid, Next(looksLikeUuid, w, events[0]), events[1..])
  }

  /** The same with no cache at all. */
  ghost function ScannedAnswers(looksLikeUuid: string -> bool, w: World, events: seq<Event>): seq<Answer>
    decreases |events|
  {
    if events == [] then []
    else
      (if events[0].Ask? then [Scanned(looksLikeUuid, w, events[0])] else [])
      + ScannedAnswers(looksLikeUuid, Next(looksLikeUuid, w, events[0]).(cache := map[]), events[1..])
  }

  ghost function Scanned(looksLikeUuid: string -> bool, w: World, e: Event): Answer
    requires e.Ask?
  {
    if e.reference == "" then EmptyReference
    else if e.kind !in w.data then UnknownKind
    else if looksLikeUuid(e.reference) then Reply(Scan(w.data[e.kind], w.readonly, e.reference), e.required)
    else Reply(FirstNamed(w.data[e.kind], e.reference), e.required)
  }

  ghost predicate AlwaysUnique(w: World, events: seq<Event>)
  {
    && (forall k | k in w.data :: UniqueNames(w.data[k]) && UniqueIds(w.data[k]))
    && forall e | e in events && e.Edit? :: UniqueNames(e.blocks) && UniqueIds(e.blocks)
  }

  /** Over any history of creations, renames, deletions, reused names and invalidations, the cached table gives the very
      answers of a table that scans every time. */
  lemma {:induction false} CacheIsInvisible(looksLikeUuid: string -> bool, w: World, cache: map<Kind, Index>, events: seq<Event>)
    requires AlwaysUnique(w, events)
    ensures Answers(looksLikeUuid, w, events) == ScannedAnswers(looksLikeUuid, w.(cache := cache), events)
    decreases |events|
  {
    if events != [] {
      var e, bare := events[0], w.(cache := cache);
      if e.Ask? && e.reference != "" && e.kind in w.data && looksLikeUuid(e.reference) {
        CachedLookupIsAScan(w.data[e.kind], Cached(w.cache, e.kind), w.readonly, e.reference);
      }
      var now := Next(looksLikeUuid, w, e);
      assert forall f :: f in events[1..] ==> f in events;
      assert e in events;
      CacheIsInvisible(looksLikeUuid, now, map[], events[1..]);
      assert now.(cache := map[]) == Next(looksLikeUuid, bare, e).(cache := map[]);
    }
  }
}
