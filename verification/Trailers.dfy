/**
 Response trailers of internal/proxy/headers.go and the response half of handleHTTP in
 internal/proxy/server.go: announcing the trailers known before the body, and passing on those known after it.
 Trailer names are canonical, as net/http delivers them.
 */
module Trailers {
  import opened GoBytes
  import opened Headers

  /** http.TrailerPrefix marks a field that net/http sends as an unannounced trailer. */
  const TRAILER_PREFIX: Bytes := Ascii("Trailer:")
  const TRAILER: Bytes := Ascii("Trailer")

  function At<K, V>(h: map<K, seq<V>>, k: K): seq<V> {
    if k in h then h[k] else []
  }

  // ---------------------------------------------------------------- copying fields

  /** dst with every value of src appended to the field of its name. */
  function Merged<K, V(==)>(dst: map<K, seq<V>>, src: map<K, seq<V>>): map<K, seq<V>> {
    map k | k in dst.Keys + src.Keys && (k in dst || src[k] != []) :: At(dst, k) + At(src, k)
  }

  /** src with a prefix in front of every name. */
  function Prefixed(src: Fields, prefix: Bytes): Fields {
    map k | k in (set j | j in src :: prefix + j) :: src[k[|prefix|..]]
  }

  /** One more value is one more Add. */
  lemma MergeOne<K, V>(dst: map<K, seq<V>>, src: map<K, seq<V>>, key: K, value: V)
    requires key in src
    ensures var before, after := Merged(dst, src), Merged(dst, src[key := src[key] + [value]]);
            after == before[key := At(before, key) + [value]]
  {
    assert At(dst, key) + (src[key] + [value]) == At(Merged(dst, src), key) + [value];
  }

  lemma MergeNext<K, V>(dst: map<K, seq<V>>, src: map<K, seq<V>>, key: K, values: seq<V>, i: nat)
    requires i < |values|
    ensures var before := Merged(dst, src[key := values[..i]]);
            Merged(dst, src[key := values[..i + 1]]) == before[key := At(before, key) + [values[i]]]
  {
    var part := src[key := values[..i]];
    MergeOne(dst, part, key, values[i]);
    assert values[..i + 1] == values[..i] + [values[i]];
    assert part[key := values[..i + 1]] == src[key := values[..i + 1]];
  }

  lemma MergeEmpty<K, V>(dst: map<K, seq<V>>)
    ensures Merged(dst, map[]) == dst
  {
    var none: map<K, seq<V>> := map[];
    assert forall k :: k in dst ==> Merged(dst, none)[k] == dst[k];
  }

  /** A field without values adds nothing. */
  lemma MergeNone<K, V>(dst: map<K, seq<V>>, src: map<K, seq<V>>, key: K)
    requires key !in src
    ensures Merged(dst, src[key := []]) == Merged(dst, src)
  {
  }

  lemma PrefixedPut(src: Fields, prefix: Bytes, key: Bytes, values: seq<Bytes>)
    ensures Prefixed(src[key := values], prefix) == Prefixed(src, prefix)[prefix + key := values]
  {
    var a, b := Prefixed(src[key := values], prefix), Prefixed(src, prefix)[prefix + key := values];
    assert a.Keys == b.Keys by {
      forall k | k in b.Keys ensures k in a.Keys {
        if k != prefix + key {
          var j :| j in src && k == prefix + j;
        }
      }
    }
  }

  lemma PrefixedAt(src: Fields, prefix: Bytes, k: Bytes)
    ensures At(Prefixed(src, prefix), prefix + k) == At(src, k)
    ensures !(prefix <= k) ==> k !in Prefixed(src, prefix)
    ensures prefix + k in Prefixed(src, prefix) <==> k in src
  {
    if prefix + k in Prefixed(src, prefix) {
      var j :| j in src && prefix + j == prefix + k;
    }
  }

  predicate FixedNames(src: Fields, prefix: Bytes) {
    forall k :: k in src ==> Canon(prefix + k) == prefix + k
  }

  lemma KeepOneMore<K, V>(src: map<K, V>, keys: set<K>, key: K)
    requires key in keys && keys <= src.Keys
    ensures src - (keys - {key}) == (src - keys)[key := src[key]]
  {
  }

  /** The next field starts without values. */
  lemma StartField(start: Fields, done: Fields, prefix: Bytes, key: Bytes)
    requires key !in done
    ensures Merged(start, Prefixed(done, prefix)[prefix + key := []]) == Merged(start, Prefixed(done, prefix))
  {
    PrefixedAt(done, prefix, key);
    MergeNone(start, Prefixed(done, prefix), prefix + key);
  }

  /** copyHeaders (no prefix) and the loop of copyTrailers (trailer prefix). */
  method CopyFields(header: Header, src: Fields, prefix: Bytes)
    requires FixedNames(src, prefix)
    modifies header
    ensures header.fields == Merged(old(header.fields), Prefixed(src, prefix))
  {
    var keys := src.Keys;
    assert src - keys == map[];
    MergeEmpty(header.fields);
    while keys != {}
      invariant keys <= src.Keys
      invariant header.fields == Merged(old(header.fields), Prefixed(src - keys, prefix))
      decreases |keys|
    {
      var key :| key in keys;
      CopyField(header, old(header.fields), src - keys, prefix, key, src[key]);
      KeepOneMore(src, keys, key);
      keys := keys - {key};
    }
    assert src - keys == src;
  }

  /** One field more than those `done` before. */
  method CopyField(
      header: Header, ghost start: Fields, ghost done: Fields, prefix: Bytes, key: Bytes, values: seq<Bytes>)
    requires key !in done && Canon(prefix + key) == prefix + key
    requires header.fields == Merged(start, Prefixed(done, prefix))
    modifies header
    ensures header.fields == Merged(start, Prefixed(done[key := values], prefix))
  {
    StartField(start, done, prefix, key);
    CopyValues(header, start, Prefixed(done, prefix), prefix + key, values);
    PrefixedPut(done, prefix, key, values);
  }

  /** The inner loop: all values of one field. */
  method CopyValues(header: Header, ghost start: Fields, ghost done: Fields, name: Bytes, values: seq<Bytes>)
    requires Canon(name) == name
    requires header.fields == Merged(start, done[name := []])
    modifies header
    ensures header.fields == Merged(start, done[name := values])
  {
    for i := 0 to |values|
      invariant header.fields == Merged(start, done[name := values[..i]])
    {
      MergeNext(start, done, name, values, i);
      header.Add(name, values[i]);
    }
    assert values[..|values|] == values;
  }

  // ---------------------------------------------------------------- announcing and delivering

  /** announceTrailers: lists the names once each, in any order, and counts them. */
  method AnnounceTrailers(header: Header, trailers: Fields) returns (announced: nat, names: seq<Bytes>)
    modifies header
    ensures announced == |trailers| == |names|
    ensures (set n | n in names) == trailers.Keys
    ensures header.fields ==
            if announced == 0 then old(header.fields) else Added(old(header.fields), TRAILER, Join(names))
  {
    announced, names := |trailers|, [];
    if announced == 0 {
      assert trailers.Keys == {};
      return;
    }
    var keys := trailers.Keys;
    while keys != {}
      invariant keys <= trailers.Keys && (set n | n in names) == trailers.Keys - keys
      invariant |names| + |keys| == |trailers|
      decreases |keys|
    {
      var key :| key in keys;
      keys := keys - {key};
      assert (set n | n in names + [key]) == (set n | n in names) + {key};
      names := names + [key];
    }
    header.Add(TRAILER, Join(names));
  }

  function WithTrailers(header: Fields, trailers: Fields, announced: nat): Fields {
    Merged(header, Prefixed(trailers, if |trailers| == announced then [] else TRAILER_PREFIX))
  }

  predicate Canonical(h: Fields) {
    forall k :: k in h ==> Canon(k) == k
  }

  lemma PrefixedNamesAreFixed(trailers: Fields)
    ensures FixedNames(trailers, TRAILER_PREFIX)
  {
    forall k | k in trailers ensures Canon(TRAILER_PREFIX + k) == TRAILER_PREFIX + k {
      var s := TRAILER_PREFIX + k;
      assert s[7] == TRAILER_PREFIX[7] == COLON;
    }
  }

  method CopyTrailers(header: Header, trailers: Fields, announced: nat)
    requires Canonical(trailers)
    modifies header
    ensures header.fields == WithTrailers(old(header.fields), trailers, announced)
  {
    if |trailers| == announced {
      assert forall k: Bytes :: [] + k == k;
      CopyFields(header, trailers, []);
    } else {
      PrefixedNamesAreFixed(trailers);
      CopyFields(header, trailers, TRAILER_PREFIX);
    }
  }

  /** What net/http sends after the body as trailer k: the values under the prefixed name, then those under
      the name itself if it was announced. */
  function Delivered(header: Fields, announced: set<Bytes>, k: Bytes): seq<Bytes> {
    At(header, TRAILER_PREFIX + k) + (if k in announced then At(header, k) else [])
  }

  /** The response header shares no name with the trailers and has no prefixed field of its own. */
  ghost predicate Apart(header: Fields, announced: set<Bytes>, trailers: Fields) {
    && (forall k :: k in announced || k in trailers ==> k !in header)
    && (forall k :: k in header || k in trailers || k in announced ==> !(TRAILER_PREFIX <= k))
  }

  /** Announced names that all came: the values go under the names themselves. */
  lemma DeliveredUnderNames(header: Fields, announced: set<Bytes>, trailers: Fields, k: Bytes)
    requires Apart(header, announced, trailers)
    ensures Delivered(Merged(header, Prefixed(trailers, [])), announced, k) ==
            if k in announced then At(trailers, k) else []
  {
    var after := Merged(header, Prefixed(trailers, []));
    assert At(after, TRAILER_PREFIX + k) == [] by {
      PrefixedAt(trailers, [], TRAILER_PREFIX + k);
      assert [] + (TRAILER_PREFIX + k) == TRAILER_PREFIX + k;
    }
    if k in announced {
      assert At(after, k) == At(trailers, k) by {
        PrefixedAt(trailers, [], k);
        assert [] + k == k;
      }
    }
  }

  lemma DeliveredUnderPrefix(header: Fields, announced: set<Bytes>, trailers: Fields, k: Bytes)
    requires Apart(header, announced, trailers)
    ensures Delivered(Merged(header, Prefixed(trailers, TRAILER_PREFIX)), announced, k) == At(trailers, k)
  {
    PrefixedAt(trailers, TRAILER_PREFIX, k);
  }

  lemma DeliveredValues(header: Fields, announced: set<Bytes>, trailers: Fields, k: Bytes)
    requires Apart(header, announced, trailers)
    ensures Delivered(WithTrailers(header, trailers, |announced|), announced, k) ==
            if |trailers| != |announced| || k in announced then At(trailers, k) else []
  {
    DeliveredUnderNames(header, announced, trailers, k);
    DeliveredUnderPrefix(header, announced, trailers, k);
  }

  /** The trailers arrive completely, every value once and in order, exactly when the counts differ or every
      trailer that has values was announced. */
  lemma TrailersArriveIff(header: Fields, announced: set<Bytes>, trailers: Fields)
    requires Apart(header, announced, trailers)
    ensures (forall k :: Delivered(WithTrailers(header, trailers, |announced|), announced, k) == At(trailers, k))
            <==> |trailers| != |announced| || forall k :: k in trailers && trailers[k] != [] ==> k in announced
  {
    var after := WithTrailers(header, trailers, |announced|);
    forall k ensures Delivered(after, announced, k) ==
                     if |trailers| != |announced| || k in announced then At(trailers, k) else [] {
      DeliveredValues(header, announced, trailers, k);
    }
  }

  lemma SameSizeSubset<T>(a: set<T>, b: set<T>)
    requires a <= b && |a| == |b|
    ensures a == b
  {
    assert b == a + (b - a);
  }

  /** The trailers of one response, before and after the body, as the client may see them. */
  function Shown(privacy: bool, trailers: Fields): Fields {
    if privacy then Anonymous(trailers) else trailers
  }

  lemma ShownValues(privacy: bool, trailers: Fields, k: Bytes)
    ensures At(Shown(privacy, trailers), k) == if privacy && IsPrivate(k) then [] else At(trailers, k)
  {
  }

  lemma ShownDelivered(header: Fields, announced: set<Bytes>, trailers: Fields, k: Bytes)
    requires announced <= trailers.Keys && Apart(header, announced, trailers)
    ensures Delivered(WithTrailers(header, trailers, |announced|), announced, k) == At(trailers, k)
  {
    if |trailers.Keys| == |announced| {
      SameSizeSubset(announced, trailers.Keys);
    }
    DeliveredValues(header, announced, trailers, k);
  }

  /** As long as reading the body only adds names, all trailers the client may see are delivered, with and
      without privacy filtering. */
  lemma TrailersConserved(privacy: bool, header: Fields, early: Fields, final: Fields, k: Bytes)
    requires Shown(privacy, early).Keys <= final.Keys
    requires Apart(header, Shown(privacy, early).Keys, Shown(privacy, final))
    ensures var announced := Shown(privacy, early).Keys;
            Delivered(WithTrailers(header, Shown(privacy, final), |announced|), announced, k)
            == (if privacy && IsPrivate(k) then [] else At(final, k))
  {
    ShownDelivered(header, Shown(privacy, early).Keys, Shown(privacy, final), k);
    ShownValues(privacy, final, k);
  }

  /** Without that, a trailer can be lost: one name is announced, another one takes its place. */
  lemma SwappedTrailerIsLost(name: Bytes, other: Bytes, value: Bytes)
    requires name != other && !(TRAILER_PREFIX <= name) && !(TRAILER_PREFIX <= other)
    ensures Delivered(WithTrailers(map[], map[other := [value]], 1), {name}, other) == []
  {
  }
}
