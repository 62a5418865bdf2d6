/**
 * The channel mapping store: the persisted Discord→Stoat channel pairs, the
 * forward index loaded from them and the reverse index derived from it.
 * Every store operation first loads the file; the file itself is modelled by
 * what reading and parsing it yields.
 */
module ChannelMapping {
  import opened Wrappers

  /** Forward index (Discord channel id → Stoat channel id) and reverse index. */
  datatype ChannelMaps = ChannelMaps(forward: map<string, string>, reverse: map<string, string>)

  /**
   * The outcome of reading and parsing the YAML mapping file: the read or the
   * parse failed, the document was empty or `null`, or it is a mapping whose
   * entries appear in document order.
   */
  datatype Document = Unreadable | NullDocument | Pairs(entries: seq<(string, string)>)

  /** The result of a mutating store operation: the maps it returns and the map it saved, if any. */
  datatype StoreResult = StoreResult(maps: ChannelMaps, saved: Option<map<string, string>>)

  const EmptyMaps := ChannelMaps(map[], map[])

  /** No Discord channel id appears twice in the document. */
  predicate DistinctKeys(entries: seq<(string, string)>) {
    forall i, j | 0 <= i < j < |entries| :: entries[i].0 != entries[j].0
  }

  /** The forward index read from the document entries. */
  function ForwardOf(entries: seq<(string, string)>): map<string, string>
    decreases |entries|
  {
    if |entries| == 0 then map[]
    else
      var last := entries[|entries| - 1];
      ForwardOf(entries[..|entries| - 1])[last.0 := last.1]
  }

  /** The reverse index built by visiting the entries in order; a later entry overwrites an earlier one. */
  function ReverseOf(entries: seq<(string, string)>): map<string, string>
    decreases |entries|
  {
    if |entries| == 0 then map[]
    else
      var last := entries[|entries| - 1];
      ReverseOf(entries[..|entries| - 1])[last.1 := last.0]
  }

  /** No two Discord channels map to the same Stoat channel. */
  predicate Injective(m: map<string, string>) {
    forall a, b | a in m && b in m && a != b :: m[a] != m[b]
  }

  /**
   * The reverse index names, for each Stoat id, a Discord id that the forward
   * index maps to it, and covers every Stoat id the forward index uses.
   */
  predicate ReverseCovers(m: ChannelMaps) {
    && (forall s | s in m.reverse :: m.reverse[s] in m.forward && m.forward[m.reverse[s]] == s)
    && (forall d | d in m.forward :: m.forward[d] in m.reverse)
  }

  /** The reverse index is exactly the inverse of the forward index. */
  predicate ExactInverse(m: ChannelMaps) {
    && (forall s | s in m.reverse :: m.reverse[s] in m.forward && m.forward[m.reverse[s]] == s)
    && (forall d | d in m.forward :: m.forward[d] in m.reverse && m.reverse[m.forward[d]] == d)
  }

  // ---------------------------------------------------------------------
  // loadChannelMappings

  /**
   * Loads both indexes. A read or parse failure (a duplicated key is a parse
   * error) and an empty document both yield two empty maps.
   */
  function Load(doc: Document): (m: ChannelMaps)
    ensures doc.Unreadable? || doc.NullDocument? ==> m == EmptyMaps
    ensures doc.Pairs? && !DistinctKeys(doc.entries) ==> m == EmptyMaps
  {
    match doc
    case Unreadable => EmptyMaps
    case NullDocument => EmptyMaps
    case Pairs(entries) =>
      if DistinctKeys(entries) then ChannelMaps(ForwardOf(entries), ReverseOf(entries))
      else EmptyMaps
  }

  /** The forward index holds exactly the document's entries. */
  lemma {:induction false} ForwardOfEntries(entries: seq<(string, string)>)
    requires DistinctKeys(entries)
    ensures forall d :: d in ForwardOf(entries) <==> exists i | 0 <= i < |entries| :: entries[i].0 == d
    ensures forall i | 0 <= i < |entries| :: ForwardOf(entries)[entries[i].0] == entries[i].1
    decreases |entries|
  {
    if |entries| > 0 {
      var init := entries[..|entries| - 1];
      assert DistinctKeys(init);
      ForwardOfEntries(init);
      forall d
        ensures d in ForwardOf(entries) <==> exists i | 0 <= i < |entries| :: entries[i].0 == d
      {
        if d in ForwardOf(entries) && d != entries[|entries| - 1].0 {
          var i :| 0 <= i < |init| && init[i].0 == d;
          assert entries[i].0 == d;
        }
        if exists i | 0 <= i < |entries| :: entries[i].0 == d {
          var i :| 0 <= i < |entries| && entries[i].0 == d;
          if i < |init| {
            assert init[i].0 == d;
          }
        }
      }
      forall i | 0 <= i < |entries|
        ensures ForwardOf(entries)[entries[i].0] == entries[i].1
      {
        if i < |init| {
          assert init[i] == entries[i];
          assert entries[i].0 != entries[|entries| - 1].0;
        }
      }
    }
  }

  /** Loading a well-formed document derives a reverse index that covers the forward one. */
  lemma {:induction false} LoadedReverseCovers(entries: seq<(string, string)>)
    requires DistinctKeys(entries)
    ensures ReverseCovers(ChannelMaps(ForwardOf(entries), ReverseOf(entries)))
    decreases |entries|
  {
    if |entries| > 0 {
      var init := entries[..|entries| - 1];
      var last := entries[|entries| - 1];
      assert DistinctKeys(init);
      LoadedReverseCovers(init);
      ForwardOfEntries(init);
      assert last.0 !in ForwardOf(init);
    }
  }

  /** Right-covering plus an injective forward index gives the exact inverse. */
  lemma CoversInjectiveIsInverse(m: ChannelMaps)
    requires ReverseCovers(m) && Injective(m.forward)
    ensures ExactInverse(m)
  {
    forall d | d in m.forward
      ensures m.reverse[m.forward[d]] == d
    {
      var d' := m.reverse[m.forward[d]];
      assert m.forward[d'] == m.forward[d];
    }
  }

  /**
   * After loading, every Stoat id in the reverse index points back to a
   * Discord id mapped to it; when no Stoat id is shared, `reverse[s] == d` for
   * every forward entry `d → s`.
   */
  lemma LoadDerivesReverse(doc: Document)
    ensures ReverseCovers(Load(doc))
    ensures Injective(Load(doc).forward) ==> ExactInverse(Load(doc))
  {
    if doc.Pairs? && DistinctKeys(doc.entries) {
      LoadedReverseCovers(doc.entries);
    }
    if Injective(Load(doc).forward) {
      CoversInjectiveIsInverse(Load(doc));
    }
  }

  // ---------------------------------------------------------------------
  // saveChannelMappings

  /** The keys of a map, each listed once, in some order. */
  ghost function KeyList(keys: set<string>): (r: seq<string>)
    ensures forall k :: k in r <==> k in keys
    ensures forall i, j | 0 <= i < j < |r| :: r[i] != r[j]
    decreases |keys|
  {
    if keys == {} then []
    else
      var k :| k in keys;
      [k] + KeyList(keys - {k})
  }

  /** The document `yaml.dump` writes for a forward index: one entry per key. */
  ghost function SavedEntries(m: map<string, string>): (r: seq<(string, string)>)
    ensures DistinctKeys(r)
    ensures forall i | 0 <= i < |r| :: r[i].0 in m && r[i].1 == m[r[i].0]
    ensures forall d | d in m :: exists i | 0 <= i < |r| :: r[i].0 == d
  {
    var keys := KeyList(m.Keys);
    var r := seq(|keys|, i requires 0 <= i < |keys| => (keys[i], m[keys[i]]));
    assert forall i | 0 <= i < |r| :: r[i].0 == keys[i];
    forall d | d in m
      ensures exists i | 0 <= i < |r| :: r[i].0 == d
    {
      var i :| 0 <= i < |keys| && keys[i] == d;
      assert r[i].0 == d;
    }
    r
  }

  /** The forward index read back from a saved document is the index that was saved. */
  lemma SavedForward(m: map<string, string>)
    ensures ForwardOf(SavedEntries(m)) == m
  {
    var entries := SavedEntries(m);
    ForwardOfEntries(entries);
    var f := ForwardOf(entries);
    forall d | d in m
      ensures d in f && f[d] == m[d]
    {
      var i :| 0 <= i < |entries| && entries[i].0 == d;
    }
  }

  /**
   * Saving a forward index and loading the file back gives that forward
   * index again, and a reverse index that is its exact inverse when no
   * Stoat id is shared.
   */
  lemma SaveThenLoad(m: map<string, string>)
    ensures Load(Pairs(SavedEntries(m))).forward == m
    ensures Injective(m) ==> ExactInverse(Load(Pairs(SavedEntries(m))))
  {
    SavedForward(m);
    LoadDerivesReverse(Pairs(SavedEntries(m)));
  }

  // ---------------------------------------------------------------------
  // addChannelMapping

  /** The Discord id that `add(_, s)` evicts: the reverse entry of `s`, when truthy. */
  function Evicted(m: ChannelMaps, s: string): set<string> {
    if s in m.reverse && m.reverse[s] != "" then {m.reverse[s]} else {}
  }

  /**
   * Adds or updates the pair `d → s` on already loaded maps: the Discord id
   * that the reverse index names for `s` loses its forward entry, then both
   * indexes record the new pair and the forward index is saved. The reverse
   * entry of a Stoat id that `d` previously mapped to is not removed.
   */
  function Add(m: ChannelMaps, d: string, s: string): (r: StoreResult)
    ensures r.maps.forward.Keys == (m.forward.Keys - Evicted(m, s)) + {d}
    ensures d in r.maps.forward && r.maps.forward[d] == s
    ensures s in r.maps.reverse && r.maps.reverse[s] == d
    ensures r.saved == Some(r.maps.forward)
    ensures forall k | k in r.maps.forward && k != d :: r.maps.forward[k] == m.forward[k]
    ensures r.maps.reverse.Keys == m.reverse.Keys + {s}
    ensures forall x | x in r.maps.reverse && x != s :: x in m.reverse && r.maps.reverse[x] == m.reverse[x]
  {
    var forward := (m.forward - Evicted(m, s))[d := s];
    StoreResult(ChannelMaps(forward, m.reverse[s := d]), Some(forward))
  }

  /** `addChannelMapping`: load the file, then add. */
  function AddChannelMapping(doc: Document, d: string, s: string): StoreResult {
    Add(Load(doc), d, s)
  }

  /**
   * Adding `d → s` removes every other Discord id that was mapped to `s`, and
   * keeps every Discord id mapped elsewhere, provided the reverse index covers
   * the forward one, no Stoat id was shared, and no Discord id is the empty
   * string (an empty reverse value is falsy and skips the eviction).
   */
  lemma AddEvictsPreviousHolder(m: ChannelMaps, d: string, s: string)
    requires ReverseCovers(m) && Injective(m.forward) && "" !in m.forward
    ensures forall k | k in m.forward && k != d ::
              (k in Add(m, d, s).maps.forward <==> m.forward[k] != s)
  {
    var r := Add(m, d, s).maps;
    forall k | k in m.forward && k != d
      ensures k in r.forward <==> m.forward[k] != s
    {
      if m.forward[k] == s {
        assert m.reverse[s] == k by { CoversInjectiveIsInverse(m); }
      } else if s in m.reverse {
        assert m.forward[m.reverse[s]] == s;
      }
    }
  }

  /** Under the same conditions, adding a pair keeps the forward index injective. */
  lemma AddPreservesInjective(m: ChannelMaps, d: string, s: string)
    requires ReverseCovers(m) && Injective(m.forward) && "" !in m.forward
    ensures Injective(Add(m, d, s).maps.forward)
  {
    var f := Add(m, d, s).maps.forward;
    AddEvictsPreviousHolder(m, d, s);
    forall a, b | a in f && b in f && a != b
      ensures f[a] != f[b]
    {
      if a != d && b != d {
        assert f[a] == m.forward[a] && f[b] == m.forward[b];
      } else if a == d {
        assert b in m.forward && m.forward[b] != s;
      } else {
        assert a in m.forward && m.forward[a] != s;
      }
    }
  }

  /** A store loaded from any document stays one-to-one under `addChannelMapping`. */
  lemma AddChannelMappingInjective(doc: Document, d: string, s: string)
    requires Injective(Load(doc).forward) && "" !in Load(doc).forward
    ensures Injective(AddChannelMapping(doc, d, s).maps.forward)
  {
    LoadDerivesReverse(doc);
    AddPreservesInjective(Load(doc), d, s);
  }

  // ---------------------------------------------------------------------
  // removeChannelMapping

  /**
   * Removes the pair held by `d` when its forward entry is truthy and saves;
   * otherwise returns the maps untouched and saves nothing.
   */
  function Remove(m: ChannelMaps, d: string): (r: StoreResult)
    ensures d in m.forward && m.forward[d] != "" ==>
              && r.maps == ChannelMaps(m.forward - {d}, m.reverse - {m.forward[d]})
              && r.saved == Some(r.maps.forward)
    ensures !(d in m.forward && m.forward[d] != "") ==> r == StoreResult(m, None)
  {
    if d in m.forward && m.forward[d] != "" then
      var forward := m.forward - {d};
      StoreResult(ChannelMaps(forward, m.reverse - {m.forward[d]}), Some(forward))
    else
      StoreResult(m, None)
  }

  /** `removeChannelMapping`: load the file, then remove. */
  function RemoveChannelMapping(doc: Document, d: string): StoreResult {
    Remove(Load(doc), d)
  }

  /** Removing from exactly inverse maps leaves them exactly inverse. */
  lemma RemovePreservesInverse(m: ChannelMaps, d: string)
    requires ExactInverse(m)
    ensures ExactInverse(Remove(m, d).maps)
  {
  }

  // ---------------------------------------------------------------------
  // getStoatIdForDiscord / getDiscordIdForStoat

  /** `index[key] || null`. */
  function Lookup(index: map<string, string>, key: string): (r: Option<string>)
    ensures r.Some? ==> key in index && index[key] == r.value && r.value != ""
    ensures r.None? ==> key !in index || index[key] == ""
  {
    if key in index && index[key] != "" then Some(index[key]) else None
  }

  function GetStoatIdForDiscord(doc: Document, d: string): Option<string> {
    Lookup(Load(doc).forward, d)
  }

  function GetDiscordIdForStoat(doc: Document, s: string): Option<string> {
    Lookup(Load(doc).reverse, s)
  }

  /** After `add(d, s)` both lookups find the new pair (the empty id is falsy, so it reads as absent). */
  lemma AddThenLookup(m: ChannelMaps, d: string, s: string)
    requires d != "" && s != ""
    ensures Lookup(Add(m, d, s).maps.forward, d) == Some(s)
    ensures Lookup(Add(m, d, s).maps.reverse, s) == Some(d)
  {
  }

  /** After `remove(d)` on exactly inverse maps, neither lookup finds the removed pair. */
  lemma RemoveThenLookup(m: ChannelMaps, d: string)
    requires ExactInverse(m)
    requires d in m.forward && m.forward[d] != ""
    ensures Lookup(Remove(m, d).maps.forward, d) == None
    ensures Lookup(Remove(m, d).maps.reverse, m.forward[d]) == None
  {
  }
}
