/** The collection store of `app/services/collectionService.ts`: an ordered list of
    Pokemon kept in the browser's durable storage under one key. There is no copy in
    memory: every query reads and decodes the stored value afresh (falling back to the
    empty list), and every operation that changes the list writes the whole new list
    back, except where it finds nothing to change (adding a present id, or a reorder
    with an index out of range). */
module CollectionService {
  import opened Wrappers
  import opened PokemonTypes

  /** `JSON.stringify` / `JSON.parse` for a collection, taken as a given pair of
      functions: `decode` answers `None` where `JSON.parse` throws. */
  datatype Codec = Codec(encode: seq<Pokemon> -> string, decode: string -> Option<seq<Pokemon>>)

  /** What the model needs of the pair: every collection encodes to a non-empty text
      (`JSON.stringify` of an array is at least `[]`) that decodes back to it. */
  ghost predicate RoundTrips(codec: Codec)
  {
    forall c :: codec.encode(c) != "" && codec.decode(codec.encode(c)) == Some(c)
  }

  // ---------------------------------------------------------------------------
  // The collection as a value
  // ---------------------------------------------------------------------------

  /** `getCollection`: nothing stored, an empty string (falsy) or text that does not
      decode all degrade to the empty collection. */
  function Load(codec: Codec, stored: Option<string>): (c: seq<Pokemon>)
  {
    match stored
    case None => []
    case Some(text) =>
      if text == "" then []
      else match codec.decode(text)
        case None => []
        case Some(c) => c
  }

  /** Whether some entry carries `id`: the test both the duplicate check of an add and
      the membership query make. */
  function HasId(c: seq<Pokemon>, id: int): (b: bool)
    ensures b <==> exists i :: 0 <= i < |c| && c[i].id == id
  {
    if c == [] then false else c[0].id == id || HasId(c[1..], id)
  }

  /** No two entries share an `id`. */
  predicate DistinctIds(c: seq<Pokemon>)
  {
    forall i, j :: 0 <= i < j < |c| ==> c[i].id != c[j].id
  }

  /** The list `addToCollection` returns: unchanged if the id is present, else the
      new Pokemon appended. */
  function AddEntry(c: seq<Pokemon>, p: Pokemon): (r: seq<Pokemon>)
  {
    if HasId(c, p.id) then c else c + [p]
  }

  /** The collection without the entries carrying `id`, the rest in their order. */
  function RemoveId(c: seq<Pokemon>, id: int): (r: seq<Pokemon>)
  {
    if c == [] then []
    else if c[0].id == id then RemoveId(c[1..], id)
    else [c[0]] + RemoveId(c[1..], id)
  }

  /** `s.splice(i, 1)` on an index inside the list: what remains. */
  function RemoveAt<T>(s: seq<T>, i: nat): (r: seq<T>)
    requires i < |s|
    ensures |r| == |s| - 1
  {
    s[..i] + s[i + 1..]
  }

  /** `s.splice(i, 0, x)` on an index at most the length. */
  function InsertAt<T>(s: seq<T>, i: nat, x: T): (r: seq<T>)
    requires i <= |s|
    ensures |r| == |s| + 1
  {
    s[..i] + [x] + s[i..]
  }

  /** The two splices of `reorderCollection` on in-range indices: take out the entry
      at `from` and put it back at `to` of what remains. The result is characterised
      by the entry landing at `to` and the rest in its old relative order. */
  function Move<T>(s: seq<T>, from: nat, to: nat): (r: seq<T>)
    requires from < |s| && to < |s|
    ensures |r| == |s| && r[to] == s[from]
    ensures RemoveAt(r, to) == RemoveAt(s, from)
  {
    var rest := RemoveAt(s, from);
    var r := InsertAt(rest, to, s[from]);
    assert r[..to] + r[to + 1..] == rest[..to] + rest[to..] == rest;
    r
  }

  // ---------------------------------------------------------------------------
  // The store
  // ---------------------------------------------------------------------------

  /** The service object over the browser's storage. `stored` is the value under
      the one key `pokemon_collection`; `writeOk` on each writing method is whether `setItem` succeeded
      (a failed write, a full quota say, is swallowed and leaves the old value). */
  class CollectionStore {
    const codec: Codec
    var stored: Option<string>

    constructor(codec: Codec, initial: Option<string>)
      ensures this.codec == codec && stored == initial
    {
      this.codec := codec;
      stored := initial;
    }

    /** The collection a read would see right now. */
    function Collection(): (c: seq<Pokemon>)
      reads this
    {
      Load(codec, stored)
    }

    method GetCollection() returns (c: seq<Pokemon>)
      ensures c == Collection()
    {
      c := Load(codec, stored);
    }

    method SaveCollection(c: seq<Pokemon>, writeOk: bool)
      modifies this`stored
      ensures stored == if writeOk then Some(codec.encode(c)) else old(stored)
      ensures writeOk && RoundTrips(codec) ==> Collection() == c
    {
      if writeOk {
        stored := Some(codec.encode(c));
      }
    }

    method AddToCollection(p: Pokemon, writeOk: bool) returns (r: seq<Pokemon>)
      modifies this`stored
      ensures r == AddEntry(old(Collection()), p)
      ensures HasId(old(Collection()), p.id) ==> r == old(Collection()) && stored == old(stored)
      ensures !HasId(old(Collection()), p.id) ==>
        r == old(Collection()) + [p] && stored == if writeOk then Some(codec.encode(r)) else old(stored)
      ensures writeOk && RoundTrips(codec) ==> Collection() == r
      ensures DistinctIds(old(Collection())) ==> DistinctIds(r)
    {
      var c := GetCollection();
      var found := HasId(c, p.id);
      if !found {
        r := c + [p];
        SaveCollection(r, writeOk);
      } else {
        r := c;
      }
      AddPreservesDistinct(c, p);
    }

    method RemoveFromCollection(id: int, writeOk: bool) returns (r: seq<Pokemon>)
      modifies this`stored
      ensures r == RemoveId(old(Collection()), id)
      ensures stored == if writeOk then Some(codec.encode(r)) else old(stored)
      ensures writeOk && RoundTrips(codec) ==> Collection() == r
      ensures DistinctIds(old(Collection())) ==> DistinctIds(r)
    {
      var c := GetCollection();
      r := RemoveId(c, id);
      SaveCollection(r, writeOk);
      RemovePreservesDistinct(c, id);
    }

    method IsInCollection(id: int) returns (b: bool)
      ensures b <==> exists i :: 0 <= i < |Collection()| && Collection()[i].id == id
    {
      var c := GetCollection();
      b := HasId(c, id);
    }

    /** The reorder with the index check the source leaves out (see ReorderAsWritten):
        in range, the moved list is written and returned; out of range, nothing is
        written and the stored list is returned. */
    method ReorderCollection(start: int, end: int, writeOk: bool) returns (r: seq<Pokemon>)
      modifies this`stored
      ensures 0 <= start < |old(Collection())| && 0 <= end < |old(Collection())| ==>
        r == Move(old(Collection()), start, end) &&
        stored == if writeOk then Some(codec.encode(r)) else old(stored)
      ensures !(0 <= start < |old(Collection())| && 0 <= end < |old(Collection())|) ==>
        r == old(Collection()) && stored == old(stored)
      ensures |r| == |old(Collection())| && multiset(r) == multiset(old(Collection()))
      ensures DistinctIds(r) <==> DistinctIds(old(Collection()))
      ensures writeOk && RoundTrips(codec) ==> Collection() == r
    {
      var c := GetCollection();
      if 0 <= start < |c| && 0 <= end < |c| {
        r := Move(c, start, end);
        SaveCollection(r, writeOk);
        MovePermutes(c, start, end);
        MoveKeepsDistinct(c, start, end);
      } else {
        r := c;
      }
    }

    method GetCollectionCount() returns (n: nat)
      ensures n == |Collection()|
    {
      var c := GetCollection();
      n := |c|;
    }
  }

  // ---------------------------------------------------------------------------
  // Load and save
  // ---------------------------------------------------------------------------

  /** Reading never fails: absent, empty or undecodable data reads as `[]`. */
  lemma LoadDegradesToEmpty(codec: Codec, stored: Option<string>)
    ensures stored.None? ==> Load(codec, stored) == []
    ensures stored == Some("") ==> Load(codec, stored) == []
    ensures stored.Some? && codec.decode(stored.value).None? ==> Load(codec, stored) == []
    ensures stored.Some? && stored.value != "" && codec.decode(stored.value).Some? ==>
      Load(codec, stored) == codec.decode(stored.value).value
  {
  }

  /** A successful save followed by a load gives back the saved collection. */
  lemma SaveLoadRoundTrip(codec: Codec, c: seq<Pokemon>)
    requires RoundTrips(codec)
    ensures Load(codec, Some(codec.encode(c))) == c
  {
    assert codec.encode(c) != "" && codec.decode(codec.encode(c)) == Some(c);
  }

  // ---------------------------------------------------------------------------
  // Add and remove
  // ---------------------------------------------------------------------------

  /** Add leaves a collection holding the id unchanged; otherwise it appends at the
      end, after the old entries in their order; either way the id is then present. */
  lemma AddEntryFacts(c: seq<Pokemon>, p: Pokemon)
    ensures HasId(c, p.id) ==> AddEntry(c, p) == c
    ensures !HasId(c, p.id) ==> |AddEntry(c, p)| == |c| + 1 && AddEntry(c, p)[..|c|] == c
                                && AddEntry(c, p)[|c|] == p
    ensures HasId(AddEntry(c, p), p.id)
  {
  }

  /** Adding the same Pokemon twice is adding it once. */
  lemma AddIdempotent(c: seq<Pokemon>, p: Pokemon)
    ensures AddEntry(AddEntry(c, p), p) == AddEntry(c, p)
  {
    AddEntryFacts(c, p);
  }

  lemma AddPreservesDistinct(c: seq<Pokemon>, p: Pokemon)
    ensures DistinctIds(c) ==> DistinctIds(AddEntry(c, p))
  {
    if DistinctIds(c) && !HasId(c, p.id) {
      var r := c + [p];
      forall i, j | 0 <= i < j < |r| ensures r[i].id != r[j].id {
        if j == |c| {
          assert r[i] == c[i];
        }
      }
    }
  }

  /** `filter` distributes over concatenation: removal keeps relative order. */
  lemma {:induction false} RemoveIdAppend(a: seq<Pokemon>, b: seq<Pokemon>, id: int)
    ensures RemoveId(a + b, id) == RemoveId(a, id) + RemoveId(b, id)
  {
    if a == [] {
      assert a + b == b;
    } else {
      var ab := a + b;
      assert ab[0] == a[0] && ab[1..] == a[1..] + b;
      RemoveIdAppend(a[1..], b, id);
      if a[0].id == id {
        assert RemoveId(ab, id) == RemoveId(ab[1..], id);
      } else {
        assert RemoveId(ab, id) == [a[0]] + RemoveId(ab[1..], id);
        assert RemoveId(a, id) == [a[0]] + RemoveId(a[1..], id);
      }
    }
  }

  /** Removing an id removes every entry with it and nothing else, and removes
      nothing when no entry has it. */
  lemma {:induction false} RemoveIdFacts(c: seq<Pokemon>, id: int)
    ensures forall x :: x in RemoveId(c, id) <==> x in c && x.id != id
    ensures !HasId(RemoveId(c, id), id)
    ensures !HasId(c, id) ==> RemoveId(c, id) == c
    ensures HasId(c, id) ==> |RemoveId(c, id)| < |c|
    ensures |RemoveId(c, id)| <= |c|
  {
    if c != [] {
      RemoveIdFacts(c[1..], id);
      assert c == [c[0]] + c[1..];
      var r := RemoveId(c, id);
      assert !HasId(r, id) by {
        forall k | 0 <= k < |r| ensures r[k].id != id {
          assert r[k] in r;
        }
      }
    }
  }

  /** Adding an absent Pokemon and removing its id again gives the collection back. */
  lemma AddThenRemove(c: seq<Pokemon>, p: Pokemon)
    requires !HasId(c, p.id)
    ensures RemoveId(AddEntry(c, p), p.id) == c
  {
    RemoveIdAppend(c, [p], p.id);
    RemoveIdFacts(c, p.id);
    assert RemoveId([p], p.id) == [];
  }

  lemma {:induction false} RemovePreservesDistinct(c: seq<Pokemon>, id: int)
    ensures DistinctIds(c) ==> DistinctIds(RemoveId(c, id))
  {
    if c != [] && DistinctIds(c) {
      var t := RemoveId(c[1..], id);
      RemoveIdFacts(c[1..], id);
      assert RemoveAt(c, 0) == c[1..];
      DistinctSplit(c, 0);
      RemovePreservesDistinct(c[1..], id);
      if c[0].id != id {
        var r := [c[0]] + t;
        assert RemoveAt(r, 0) == t;
        assert !HasId(t, c[0].id) by {
          forall k | 0 <= k < |t| ensures t[k].id != c[0].id {
            assert t[k] in c[1..];
          }
        }
        DistinctSplit(r, 0);
      }
    }
  }

  // ---------------------------------------------------------------------------
  // Reorder
  // ---------------------------------------------------------------------------

  /** Moving keeps the length and the multiset of entries. */
  lemma MovePermutes<T>(s: seq<T>, from: nat, to: nat)
    requires from < |s| && to < |s|
    ensures |Move(s, from, to)| == |s| && multiset(Move(s, from, to)) == multiset(s)
  {
    var rest := RemoveAt(s, from);
    assert s == s[..from] + [s[from]] + s[from + 1..];
    assert rest[..to] + rest[to..] == rest;
    calc {
      multiset(Move(s, from, to));
      multiset(rest[..to]) + multiset([s[from]]) + multiset(rest[to..]);
      multiset(rest) + multiset([s[from]]);
      multiset(s[..from]) + multiset(s[from + 1..]) + multiset([s[from]]);
      multiset(s);
    }
  }

  /** Moving back undoes a move. */
  lemma MoveInverse<T>(s: seq<T>, from: nat, to: nat)
    requires from < |s| && to < |s|
    ensures Move(Move(s, from, to), to, from) == s
  {
    var r := Move(s, from, to);
    assert Move(r, to, from) == InsertAt(RemoveAt(s, from), from, s[from]);
    assert s == s[..from] + [s[from]] + s[from + 1..];
  }

  /** Taking out entry `i` splits the distinct-id condition into the rest being
      distinct and not holding entry `i`'s id. */
  lemma DistinctSplit(s: seq<Pokemon>, i: nat)
    requires i < |s|
    ensures DistinctIds(s) <==> DistinctIds(RemoveAt(s, i)) && !HasId(RemoveAt(s, i), s[i].id)
  {
    if DistinctIds(s) {
      DistinctRest(s, i);
    }
    if DistinctIds(RemoveAt(s, i)) && !HasId(RemoveAt(s, i), s[i].id) {
      DistinctFromRest(s, i);
    }
  }

  lemma DistinctRest(s: seq<Pokemon>, i: nat)
    requires i < |s| && DistinctIds(s)
    ensures DistinctIds(RemoveAt(s, i)) && !HasId(RemoveAt(s, i), s[i].id)
  {
    var t := RemoveAt(s, i);
    assert forall j :: 0 <= j < |t| ==> t[j] == s[if j < i then j else j + 1];
  }

  lemma DistinctFromRest(s: seq<Pokemon>, i: nat)
    requires i < |s|
    requires DistinctIds(RemoveAt(s, i)) && !HasId(RemoveAt(s, i), s[i].id)
    ensures DistinctIds(s)
  {
    var t := RemoveAt(s, i);
    assert forall j :: 0 <= j < |t| ==> t[j] == s[if j < i then j else j + 1];
    forall a, b | 0 <= a < b < |s| ensures s[a].id != s[b].id {
      if a == i {
        assert s[b] == t[b - 1];
      } else if b == i {
        assert s[a] == t[a];
      } else {
        var a', b' := if a < i then a else a - 1, if b < i then b else b - 1;
        assert s[a] == t[a'] && s[b] == t[b'];
      }
    }
  }

  /** A move keeps distinct ids distinct, and cannot make duplicates distinct. */
  lemma MoveKeepsDistinct(s: seq<Pokemon>, from: nat, to: nat)
    requires from < |s| && to < |s|
    ensures DistinctIds(Move(s, from, to)) <==> DistinctIds(s)
  {
    DistinctSplit(s, from);
    DistinctSplit(Move(s, from, to), to);
  }

  /** The two examples of the move semantics (not a swap). */
  lemma MoveExamples()
    ensures Move("ABCD", 0, 2) == "BCAD"
    ensures Move("ABCD", 3, 0) == "DABC"
    ensures Move("A", 0, 0) == "A"
  {
  }

  // ---------------------------------------------------------------------------
  // reorderCollection as written
  // ---------------------------------------------------------------------------

  /** A slot of a JavaScript array: `const [removed] = []` binds `undefined`, which
      the second splice then inserts. */
  datatype Slot = Undefined | Item(pokemon: Pokemon)

  function Lift(c: seq<Pokemon>): (r: seq<Slot>)
    ensures |r| == |c| && forall i :: 0 <= i < |c| ==> r[i] == Item(c[i])
  {
    seq(|c|, i requires 0 <= i < |c| => Item(c[i]))
  }

  /** How `splice` turns its start argument into a position: counted from the end
      when negative, clamped to `[0, len]`. */
  function SpliceStart(i: int, len: nat): (k: nat)
    ensures k <= len
    ensures 0 <= i <= len ==> k == i
  {
    if i < 0 then (if len + i < 0 then 0 else len + i) else if i > len then len else i
  }

  /** `reorderCollection(startIndex, endIndex)` exactly as the two splices behave,
      with no check on the indices. */
  function ReorderAsWritten(c: seq<Pokemon>, start: int, end: int): (r: seq<Slot>)
    ensures SpliceStart(start, |c|) < |c| ==> |r| == |c|
    ensures SpliceStart(start, |c|) == |c| ==> |r| == |c| + 1
  {
    var a := Lift(c);
    var s := SpliceStart(start, |a|);
    var removed := if s < |a| then a[s] else Undefined;
    var rest := if s < |a| then RemoveAt(a, s) else a;
    InsertAt(rest, SpliceStart(end, |rest|), removed)
  }

  lemma LiftRemoveAt(c: seq<Pokemon>, i: nat)
    requires i < |c|
    ensures RemoveAt(Lift(c), i) == Lift(RemoveAt(c, i))
  {
    var l, r := RemoveAt(Lift(c), i), Lift(RemoveAt(c, i));
    forall j | 0 <= j < |l| ensures l[j] == r[j] {
      if j < i { assert l[j] == Lift(c)[j]; } else { assert l[j] == Lift(c)[j + 1]; }
    }
  }

  lemma LiftInsertAt(c: seq<Pokemon>, i: nat, p: Pokemon)
    requires i <= |c|
    ensures InsertAt(Lift(c), i, Item(p)) == Lift(InsertAt(c, i, p))
  {
    var l, r := InsertAt(Lift(c), i, Item(p)), Lift(InsertAt(c, i, p));
    forall j | 0 <= j < |l| ensures l[j] == r[j] {
      if j < i { assert l[j] == Lift(c)[j]; }
      else if j > i { assert l[j] == Lift(c)[j - 1]; }
    }
  }

  /** On in-range indices the code as written is the move. */
  lemma ReorderAsWrittenInRange(c: seq<Pokemon>, start: int, end: int)
    requires 0 <= start < |c| && 0 <= end < |c|
    ensures ReorderAsWritten(c, start, end) == Lift(Move(c, start, end))
  {
    LiftRemoveAt(c, start);
    LiftInsertAt(RemoveAt(c, start), end, c[start]);
  }

  /** A start index at or past the end removes nothing, binds `undefined` and inserts
      it: the list grows by one slot that holds no Pokemon. */
  lemma ReorderAsWrittenPastEnd(c: seq<Pokemon>, start: int, end: int)
    requires start >= |c|
    ensures |ReorderAsWritten(c, start, end)| == |c| + 1
    ensures Undefined in ReorderAsWritten(c, start, end)
  {
    var r := ReorderAsWritten(c, start, end);
    assert r[SpliceStart(end, |c|)] == Undefined;
  }

  /** The smallest witness: reordering the empty collection stores `[undefined]`. */
  lemma ReorderEmptyCounterexample()
    ensures ReorderAsWritten([], 0, 0) == [Undefined]
  {
  }

  /** Starting empty: add Bulbasaur, reorder the one-entry list, remove it again. */
  method CollectionScenario(codec: Codec, bulbasaur: Pokemon)
    requires RoundTrips(codec)
  {
    var store := new CollectionStore(codec, None);
    var c := store.AddToCollection(bulbasaur, true);
    assert c == [bulbasaur];
    c := store.ReorderCollection(0, 0, true);
    assert c == [bulbasaur];
    c := store.RemoveFromCollection(bulbasaur.id, true);
    assert c == [];
    assert store.stored == Some(codec.encode([]));
  }
}
