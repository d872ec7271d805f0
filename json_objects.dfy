/**
 * JSON values and plain JavaScript objects as ordered lists of (key, value)
 * entries. Key order is insertion order, which is JavaScript's order for keys
 * that are not array indices; JavaScript lists array-index keys ("0", "42")
 * first, in ascending order, and this model does not.
 */
module JsonObjects {
  import opened Wrappers

  datatype Json =
    | JNull
    | JBool(b: bool)
    | JNum(n: int)
    | JStr(s: string)
    | JArr(items: seq<Json>)
    | JObj(entries: seq<(string, Json)>)

  type Entries = seq<(string, Json)>

  function Keys(o: Entries): (ks: seq<string>)
    ensures |ks| == |o|
  {
    if o == [] then [] else [o[0].0] + Keys(o[1..])
  }

  predicate Distinct(ks: seq<string>)
  {
    ks == [] || (ks[0] !in ks[1..] && Distinct(ks[1..]))
  }

  /** A JavaScript object: no key appears twice. */
  type Obj = o: Entries | Distinct(Keys(o))

  /** Property read `o[k]`, `None` standing for `undefined`. */
  function Get(o: Entries, k: string): (v: Option<Json>)
    ensures v.Some? <==> k in Keys(o)
  {
    if o == [] then None
    else if o[0].0 == k then Some(o[0].1)
    else Get(o[1..], k)
  }

  /** Property assignment `o[k] = v`: an existing key keeps its place, a new key goes last. */
  function Put(o: Entries, k: string, v: Json): (r: Entries)
    ensures Keys(r) == if k in Keys(o) then Keys(o) else Keys(o) + [k]
  {
    if o == [] then [(k, v)]
    else if o[0].0 == k then [(k, v)] + o[1..]
    else
      var tail := Put(o[1..], k, v);
      assert ([o[0]] + tail)[1..] == tail;
      [o[0]] + tail
  }

  /** After `o[k] = v`, reading `k` gives `v` and every other key reads as before. */
  lemma {:induction false} PutGet(o: Entries, k: string, v: Json, k': string)
    ensures Get(Put(o, k, v), k') == if k' == k then Some(v) else Get(o, k')
    decreases |o|
  {
    if o != [] && o[0].0 != k {
      PutGet(o[1..], k, v, k');
      assert ([o[0]] + Put(o[1..], k, v))[1..] == Put(o[1..], k, v);
    }
  }

  lemma {:induction false} DistinctAppend(ks: seq<string>, k: string)
    requires Distinct(ks) && k !in ks
    ensures Distinct(ks + [k])
    decreases |ks|
  {
    if ks != [] {
      assert (ks + [k])[1..] == ks[1..] + [k];
      DistinctAppend(ks[1..], k);
    }
  }

  lemma PutKeepsDistinct(o: Entries, k: string, v: Json)
    requires Distinct(Keys(o))
    ensures Distinct(Keys(Put(o, k, v)))
  {
    if k !in Keys(o) {
      DistinctAppend(Keys(o), k);
    }
  }

  /** `{...a, ...b}`: the entries of `b`, in order, assigned onto a copy of `a`. */
  function Spread(a: Entries, b: Entries): (r: Entries)
    decreases |b|
  {
    if b == [] then a else Spread(Put(a, b[0].0, b[0].1), b[1..])
  }

  /** After a spread, a key of `b` reads as in `b`; any other key reads as in `a`. */
  lemma {:induction false} SpreadGet(a: Entries, b: Entries, k: string)
    requires Distinct(Keys(b))
    ensures Get(Spread(a, b), k) == if k in Keys(b) then Get(b, k) else Get(a, k)
    decreases |b|
  {
    if b != [] {
      var a' := Put(a, b[0].0, b[0].1);
      SpreadGet(a', b[1..], k);
      PutGet(a, b[0].0, b[0].1, k);
    }
  }

  /** A spread keeps the keys of `a` first and in order, and adds exactly the keys of `b`. */
  lemma {:induction false} SpreadKeys(a: Entries, b: Entries)
    ensures var r := Spread(a, b);
      && |a| <= |r| && Keys(r)[..|a|] == Keys(a)
      && (forall k :: k in Keys(r) <==> k in Keys(a) || k in Keys(b))
      && (Distinct(Keys(a)) ==> Distinct(Keys(r)))
    decreases |b|
  {
    if b != [] {
      var a' := Put(a, b[0].0, b[0].1);
      if Distinct(Keys(a)) {
        PutKeepsDistinct(a, b[0].0, b[0].1);
      }
      SpreadKeys(a', b[1..]);
      assert Keys(a')[..|a|] == Keys(a);
    }
  }

  /** The keys of `ks` that are not in `seen`, each once, in their order in `ks`. */
  function Fresh(ks: seq<string>, seen: seq<string>): seq<string>
    decreases |ks|
  {
    if ks == [] then []
    else if ks[0] in seen then Fresh(ks[1..], seen)
    else [ks[0]] + Fresh(ks[1..], seen + [ks[0]])
  }

  /** A spread lists the keys of `a` in order, then the keys of `b` that are new, in their order in `b`. */
  lemma {:induction false} SpreadKeyOrder(a: Entries, b: Entries)
    ensures Keys(Spread(a, b)) == Keys(a) + Fresh(Keys(b), Keys(a))
    decreases |b|
  {
    if b != [] {
      var k, rest := b[0].0, b[1..];
      var a' := Put(a, k, b[0].1);
      assert Spread(a, b) == Spread(a', rest);
      SpreadKeyOrder(a', rest);
      FreshOfKeys(b, Keys(a));
      if k !in Keys(a) {
        var tail := Fresh(Keys(rest), Keys(a) + [k]);
        assert Keys(a') == Keys(a) + [k];
        assert Keys(a) + [k] + tail == Keys(a) + ([k] + tail);
      }
    }
  }

  /** One step of `Fresh` over the keys of a non-empty entry list. */
  lemma FreshOfKeys(b: Entries, seen: seq<string>)
    requires b != []
    ensures Fresh(Keys(b), seen)
            == if b[0].0 in seen then Fresh(Keys(b[1..]), seen)
               else [b[0].0] + Fresh(Keys(b[1..]), seen + [b[0].0])
  {
    var ks := Keys(b);
    assert ks[0] == b[0].0 && ks[1..] == Keys(b[1..]);
  }

  /** Spreading entries whose keys are all new appends them unchanged. */
  lemma {:induction false} SpreadFreshKeys(a: Entries, b: Entries)
    requires Distinct(Keys(b))
    requires forall k :: k in Keys(b) ==> k !in Keys(a)
    ensures Spread(a, b) == a + b
    decreases |b|
  {
    if b != [] {
      var rest := b[1..];
      var a' := a + [b[0]];
      calc {
        Spread(a, b);
        { FreshKeysStep(a, b);
          PutAppendsNewKey(a, b[0].0, b[0].1); }
        Spread(a', rest);
        { FreshKeysStep(a, b);
          SpreadFreshKeys(a', rest); }
        a' + rest;
        { assert b == [b[0]] + rest; }
        a + b;
      }
    }
  }

  /** Moving the first fresh entry of `b` onto `a` leaves the rest of `b` fresh. */
  lemma FreshKeysStep(a: Entries, b: Entries)
    requires b != [] && Distinct(Keys(b))
    requires forall k :: k in Keys(b) ==> k !in Keys(a)
    ensures b[0].0 !in Keys(a)
    ensures Distinct(Keys(b[1..]))
    ensures forall k :: k in Keys(b[1..]) ==> k !in Keys(a + [b[0]])
  {
    var ks := Keys(b);
    assert ks == [b[0].0] + Keys(b[1..]);
    assert ks[1..] == Keys(b[1..]);
    assert b[0].0 in ks;
    KeysAppend(a, b[0]);
    forall k | k in Keys(b[1..])
      ensures k !in Keys(a + [b[0]])
    {
      assert k in ks;
    }
  }

  lemma {:induction false} KeysAppend(o: Entries, e: (string, Json))
    ensures Keys(o + [e]) == Keys(o) + [e.0]
    decreases |o|
  {
    if o != [] {
      assert (o + [e])[1..] == o[1..] + [e];
      KeysAppend(o[1..], e);
    }
  }

  lemma {:induction false} PutAppendsNewKey(o: Entries, k: string, v: Json)
    requires k !in Keys(o)
    ensures Put(o, k, v) == o + [(k, v)]
    decreases |o|
  {
    if o != [] {
      assert Keys(o) == [o[0].0] + Keys(o[1..]);
      PutAppendsNewKey(o[1..], k, v);
      assert [o[0]] + (o[1..] + [(k, v)]) == o + [(k, v)];
    }
  }

  /** `{...o}` copies an object exactly: same keys, same order, same values. */
  lemma ShallowCopy(o: Obj)
    ensures Spread([], o) == o
  {
    SpreadFreshKeys([], o);
  }
}
