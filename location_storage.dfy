/**
 * The session record of the user's location: the last fix (a JSON text under
 * the meta key) or a denial (a `'true'` flag and a timestamp under two more
 * keys), kept in the browser's key-value session store. JSON, `Number()` and
 * the number-to-text conversion are parameters (`Codec`).
 */
module LocationStorage {
  import opened Js

  const GEO_META_KEY: string := "descuentosuy:geo-meta"
  const GEO_DENIED_KEY: string := "descuentosuy:geo-denied"
  /** `${GEO_DENIED_KEY}:ts` */
  const GEO_DENIED_TS_KEY: string := GEO_DENIED_KEY + ":ts"

  /** The three keys the module owns. */
  const GeoKeys: set<string> := {GEO_META_KEY, GEO_DENIED_KEY, GEO_DENIED_TS_KEY}

  datatype GeoSource = Gps | Manual

  /** A fix as stored: every field may be absent. */
  datatype GeoMeta = GeoMeta(
    lat: Option<real>,
    lon: Option<real>,
    accuracy: Option<real>,
    updatedAt: Option<real>,
    source: Option<GeoSource>)

  /** `{ status: 'denied', updatedAt? }` or `{ status: 'granted', ...meta }`. */
  datatype GeoState = Denied(updatedAt: Option<real>) | Granted(meta: GeoMeta)

  type Storage = map<string, string>

  /**
   * The conversions the module calls: `JSON.stringify`, `JSON.parse` (None
   * when it throws), `Number()` restricted to finite results (None when the
   * result is not finite), and `Date.now().toString()`.
   */
  datatype Codec = Codec(
    stringify: GeoMeta -> string,
    parse: string -> Option<GeoMeta>,
    toNumber: string -> Option<real>,
    showTime: int -> string)

  // ----- the mutators on storage values ---------------------------------------

  /** Only the module's own keys differ between `s` and `r`. */
  ghost predicate OthersUnchanged(s: Storage, r: Storage) {
    r - GeoKeys == s - GeoKeys
  }

  /** `saveGeoMeta(meta)`: store the JSON text, drop the denial flag and its timestamp. */
  function AfterSave(s: Storage, meta: GeoMeta, c: Codec): (r: Storage)
    ensures GEO_META_KEY in r && r[GEO_META_KEY] == c.stringify(meta)
    ensures GEO_DENIED_KEY !in r && GEO_DENIED_TS_KEY !in r
    ensures OthersUnchanged(s, r)
  {
    s[GEO_META_KEY := c.stringify(meta)] - {GEO_DENIED_KEY} - {GEO_DENIED_TS_KEY}
  }

  /** `markGeoDenied()` at time `now`: set the flag and the timestamp, drop the meta. */
  function AfterDenied(s: Storage, now: int, c: Codec): (r: Storage)
    ensures GEO_DENIED_KEY in r && r[GEO_DENIED_KEY] == "true"
    ensures GEO_DENIED_TS_KEY in r && r[GEO_DENIED_TS_KEY] == c.showTime(now)
    ensures GEO_META_KEY !in r
    ensures OthersUnchanged(s, r)
  {
    s[GEO_DENIED_KEY := "true"][GEO_DENIED_TS_KEY := c.showTime(now)] - {GEO_META_KEY}
  }

  /** `clearGeoState()`: drop all three keys. */
  function AfterClear(s: Storage): (r: Storage)
    ensures r.Keys !! GeoKeys
    ensures OthersUnchanged(s, r)
  {
    s - {GEO_META_KEY} - {GEO_DENIED_KEY} - {GEO_DENIED_TS_KEY}
  }

  /**
   * `loadGeoState()`: a `'true'` denial flag wins and yields its timestamp read
   * with `Number(ts ?? '')`, absent when not finite; otherwise an absent or
   * empty meta yields null, and so does a meta that does not parse.
   */
  function Load(s: Storage, c: Codec): (r: Option<GeoState>)
    ensures (GEO_DENIED_KEY in s && s[GEO_DENIED_KEY] == "true") <==> r.Some? && r.value.Denied?
    ensures r.Some? && r.value.Denied? ==>
              r.value.updatedAt == c.toNumber(if GEO_DENIED_TS_KEY in s then s[GEO_DENIED_TS_KEY] else "")
    ensures r.Some? && r.value.Granted? <==>
              && !(GEO_DENIED_KEY in s && s[GEO_DENIED_KEY] == "true")
              && GEO_META_KEY in s && s[GEO_META_KEY] != ""
              && c.parse(s[GEO_META_KEY]).Some?
    ensures r.Some? && r.value.Granted? ==> Some(r.value.meta) == c.parse(s[GEO_META_KEY])
  {
    if GEO_DENIED_KEY in s && s[GEO_DENIED_KEY] == "true" then
      var ts := if GEO_DENIED_TS_KEY in s then Some(s[GEO_DENIED_TS_KEY]) else None;
      Some(Denied(c.toNumber(ts.OrElse(Some("")).value)))
    else if GEO_META_KEY !in s || s[GEO_META_KEY] == "" then None
    else
      match c.parse(s[GEO_META_KEY])
      case None => None
      case Some(meta) => Some(Granted(meta))
  }

  // ----- what the mutators promise the reader ---------------------------------

  /**
   * After a save, the state reads back as granted with the saved fields,
   * given that the saved meta's text parses back to it and is not empty (it
   * is an object literal).
   */
  lemma SaveThenLoad(s: Storage, meta: GeoMeta, c: Codec)
    requires c.parse(c.stringify(meta)) == Some(meta) && c.stringify(meta) != ""
    ensures Load(AfterSave(s, meta, c), c) == Some(Granted(meta))
  {
    var r := AfterSave(s, meta, c);
    assert r[GEO_META_KEY] == c.stringify(meta);
  }

  /**
   * After a denial at `now`, the state reads back as denied at `now`, given
   * that the printed time reads back as that number.
   */
  lemma DeniedThenLoad(s: Storage, now: int, c: Codec)
    requires c.toNumber(c.showTime(now)) == Some(now as real)
    ensures Load(AfterDenied(s, now, c), c) == Some(Denied(Some(now as real)))
  {
  }

  /** After a clear, nothing reads back. */
  lemma ClearThenLoad(s: Storage, c: Codec)
    ensures Load(AfterClear(s), c) == None
  {
    var r := AfterClear(s);
    assert GEO_DENIED_KEY !in r && GEO_META_KEY !in r;
  }

  /** A denial flag without its timestamp reads back at time 0, since `Number('')` is 0. */
  lemma DeniedWithoutTimestamp(s: Storage, c: Codec)
    requires c.toNumber("") == Some(0.0)
    requires GEO_DENIED_KEY in s && s[GEO_DENIED_KEY] == "true" && GEO_DENIED_TS_KEY !in s
    ensures Load(s, c) == Some(Denied(Some(0.0)))
  {
  }

  /** A meta text that does not parse reads back as nothing. */
  lemma UnparseableMeta(s: Storage, c: Codec)
    requires !(GEO_DENIED_KEY in s && s[GEO_DENIED_KEY] == "true")
    requires GEO_META_KEY in s && c.parse(s[GEO_META_KEY]).None?
    ensures Load(s, c) == None
  {
  }

  /** Clearing twice is clearing once; saving the same meta twice is saving it once. */
  lemma MutatorsIdempotent(s: Storage, meta: GeoMeta, c: Codec)
    ensures AfterClear(AfterClear(s)) == AfterClear(s)
    ensures AfterSave(AfterSave(s, meta, c), meta, c) == AfterSave(s, meta, c)
  {
    var once := AfterSave(s, meta, c);
    var twice := AfterSave(once, meta, c);
    assert forall k :: k in twice <==> k in once;
    assert forall k :: k in twice ==> twice[k] == once[k];
  }

  /** A later denial overwrites an earlier one. */
  lemma DeniedOverwrites(s: Storage, t1: int, t2: int, c: Codec)
    ensures AfterDenied(AfterDenied(s, t1, c), t2, c) == AfterDenied(s, t2, c)
  {
    var once := AfterDenied(s, t2, c);
    var twice := AfterDenied(AfterDenied(s, t1, c), t2, c);
    assert forall k :: k in twice <==> k in once;
    assert forall k :: k in twice ==> twice[k] == once[k];
  }

  // ----- the exclusion invariant ----------------------------------------------

  datatype Mutation = Save(meta: GeoMeta) | Deny(now: int) | Clear

  function Apply(s: Storage, op: Mutation, c: Codec): Storage {
    match op
    case Save(meta) => AfterSave(s, meta, c)
    case Deny(now) => AfterDenied(s, now, c)
    case Clear => AfterClear(s)
  }

  /** The mutations applied in order. */
  function ApplyAll(s: Storage, ops: seq<Mutation>, c: Codec): Storage
    decreases |ops|
  {
    if ops == [] then s else ApplyAll(Apply(s, ops[0], c), ops[1..], c)
  }

  /**
   * The meta and the denial flag are never stored together, and the
   * timestamp is stored exactly when the flag is.
   */
  ghost predicate Exclusive(s: Storage) {
    && !(GEO_META_KEY in s && GEO_DENIED_KEY in s)
    && (GEO_DENIED_TS_KEY in s <==> GEO_DENIED_KEY in s)
  }

  /** Every mutation establishes the invariant, whatever the store held before. */
  lemma ApplyEstablishes(s: Storage, op: Mutation, c: Codec)
    ensures Exclusive(Apply(s, op, c))
  {
    match op
    case Save(meta) =>
    case Deny(now) =>
    case Clear =>
      var r := AfterClear(s);
      assert GEO_META_KEY !in r && GEO_DENIED_KEY !in r && GEO_DENIED_TS_KEY !in r;
  }

  /**
   * From a store that satisfies the invariant (the empty one does), no sequence
   * of mutations breaks it; after at least one mutation it holds from any store.
   */
  lemma {:induction false} ApplyAllExclusive(s: Storage, ops: seq<Mutation>, c: Codec)
    requires Exclusive(s) || ops != []
    ensures Exclusive(ApplyAll(s, ops, c))
    decreases |ops|
  {
    if ops != [] {
      ApplyEstablishes(s, ops[0], c);
      ApplyAllExclusive(Apply(s, ops[0], c), ops[1..], c);
    }
  }

  /** Entries outside the module's keys survive any sequence of mutations. */
  lemma {:induction false} ApplyAllOthersUnchanged(s: Storage, ops: seq<Mutation>, c: Codec)
    ensures OthersUnchanged(s, ApplyAll(s, ops, c))
    decreases |ops|
  {
    if ops != [] {
      ApplyAllOthersUnchanged(Apply(s, ops[0], c), ops[1..], c);
    }
  }

  // ----- the session store --------------------------------------------------------

  /** `window.sessionStorage` as this module uses it. */
  class GeoSession {
    var entries: Storage
    const codec: Codec

    constructor (initial: Storage, codec: Codec)
      ensures entries == initial && this.codec == codec
    {
      entries := initial;
      this.codec := codec;
    }

    /** `getItem`. */
    function GetItem(key: string): (r: Option<string>)
      reads this
      ensures r.Some? <==> key in entries
      ensures r.Some? ==> r.value == entries[key]
    {
      if key in entries then Some(entries[key]) else None
    }

    method SetItem(key: string, value: string)
      modifies this
      ensures entries == old(entries)[key := value]
    {
      entries := entries[key := value];
    }

    method RemoveItem(key: string)
      modifies this
      ensures entries == old(entries) - {key}
    {
      entries := entries - {key};
    }

    method SaveGeoMeta(meta: GeoMeta)
      modifies this
      ensures entries == AfterSave(old(entries), meta, codec)
      ensures Exclusive(entries)
    {
      SetItem(GEO_META_KEY, codec.stringify(meta));
      RemoveItem(GEO_DENIED_KEY);
      RemoveItem(GEO_DENIED_TS_KEY);
    }

    method MarkGeoDenied(now: int)
      modifies this
      ensures entries == AfterDenied(old(entries), now, codec)
      ensures Exclusive(entries)
    {
      SetItem(GEO_DENIED_KEY, "true");
      SetItem(GEO_DENIED_TS_KEY, codec.showTime(now));
      RemoveItem(GEO_META_KEY);
    }

    method ClearGeoState()
      modifies this
      ensures entries == AfterClear(old(entries))
      ensures Exclusive(entries)
    {
      RemoveItem(GEO_META_KEY);
      RemoveItem(GEO_DENIED_KEY);
      RemoveItem(GEO_DENIED_TS_KEY);
    }

    /** `loadGeoState()` over the current entries. */
    function LoadGeoState(): Option<GeoState>
      reads this
    {
      Load(entries, codec)
    }
  }
}
