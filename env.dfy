/** The hierarchical environment of a test: a map from names to values in
    which a dotted path a.b.c names a value inside nested maps. putDeep is
    modelled on values (a new map is returned); getDeep keeps its loop. */
module Environment {
  import opened Text
  import opened Tokens
  import opened Values

  type Env = map<string, Value>

  /** The segments putDeep walks: the path split on '.', each trimmed. No
      segment holds a '.' or has blanks around it, and a path without a '.'
      is a single segment. */
  function Segments(dotted: string): (ks: seq<string>)
    ensures forall j :: 0 <= j < |ks| ==> '.' !in ks[j] && Trimmed(ks[j])
    ensures '.' !in dotted ==> ks == [JavaTrim(dotted)]
  {
    var ps := JavaSplit(dotted, '.');
    var ks := seq(|ps|, j requires 0 <= j < |ps| => JavaTrim(ps[j]));
    assert forall j :: 0 <= j < |ks| ==> '.' !in ks[j] && Trimmed(ks[j]) by {
      forall j | 0 <= j < |ks| ensures '.' !in ks[j] && Trimmed(ks[j]) {
        TrimIsTrimmed(ps[j]);
        TrimKeepsOut(ps[j], '.');
      }
    }
    ks
  }

  /** v stored at the path ks below m: each segment but the last leads to a
      map, a fresh empty one where there was no map. */
  function Store(m: map<string, Value>, ks: seq<string>, v: Value): map<string, Value>
    requires ks != []
    decreases |ks|
  {
    var k := ks[0];
    if |ks| == 1 then m[k := v]
    else
      var sub := if k in m && m[k].VMap? then m[k].m else map[];
      m[k := VMap(Store(sub, ks[1..], v))]
  }

  /** putDeep. A path made only of dots splits into no segment at all, where
      Java's parts[parts.length - 1] is out of range. */
  function PutDeep(env: Env, dotted: string, v: Value): Result<Env>
  {
    var ks := Segments(dotted);
    if ks == [] then Err(PathError(dotted)) else Ok(Store(env, ks, v))
  }

  /** The walk of getDeep from cur along ks: null as soon as cur is not a map
      or the segment is missing or holds null. */
  function Walk(cur: Value, ks: seq<string>): Value
    decreases |ks|
  {
    if ks == [] then cur
    else if !cur.VMap? then VNull
    else
      var nx := if ks[0] in cur.m then cur.m[ks[0]] else VNull;
      if nx == VNull then VNull else Walk(nx, ks[1..])
  }

  /** getDeep: a name without '.' is looked up directly, a dotted one walked
      segment by segment. */
  function Lookup(env: Env, dotted: string): Value
  {
    if '.' !in dotted then (if dotted in env then env[dotted] else VNull)
    else Walk(VMap(env), JavaSplit(dotted, '.'))
  }

  /** The walk of getDeep written as its loop. */
  method GetDeep(env: Env, dotted: string) returns (v: Value)
    ensures v == Lookup(env, dotted)
  {
    if '.' !in dotted {
      return if dotted in env then env[dotted] else VNull;
    }
    var parts := JavaSplit(dotted, '.');
    var cur := VMap(env);
    for k := 0 to |parts|
      invariant Walk(cur, parts[k..]) == Walk(VMap(env), parts)
    {
      if !cur.VMap? {
        return VNull;
      }
      cur := if parts[k] in cur.m then cur.m[parts[k]] else VNull;
      if cur == VNull {
        return VNull;
      }
    }
    return cur;
  }

  /** The direct lookup for a name without '.' is the walk along its single
      segment: getDeep is the walk along the split path in every case. */
  lemma LookupIsWalk(env: Env, dotted: string)
    ensures Lookup(env, dotted) == Walk(VMap(env), JavaSplit(dotted, '.'))
  {
    if '.' !in dotted {
      assert JavaSplit(dotted, '.') == [dotted];
      assert [dotted][1..] == [];
    }
  }

  /** Walking a path in two parts walks the first part, then the second
      from where the first ended. */
  lemma {:induction false} WalkConcat(cur: Value, a: seq<string>, b: seq<string>)
    ensures Walk(cur, a + b) == Walk(Walk(cur, a), b)
    decreases |a|
  {
    if a == [] {
      assert a + b == b;
    } else if b == [] {
      assert a + b == a;
    } else if cur.VMap? {
      var nx := if a[0] in cur.m then cur.m[a[0]] else VNull;
      assert (a + b)[0] == a[0] && (a + b)[1..] == a[1..] + b;
      if nx != VNull {
        WalkConcat(nx, a[1..], b);
      }
    }
  }

  /** getDeep gives null once the path runs through a value that is not a
      map: whatever follows is not looked at. */
  lemma ThroughNonMapIsNull(cur: Value, a: seq<string>, b: seq<string>)
    requires b != [] && !Walk(cur, a).VMap?
    ensures Walk(cur, a + b) == VNull
  {
    WalkConcat(cur, a, b);
  }

  /** What Store stores is found again at its path. */
  lemma {:induction false} WalkStore(m: map<string, Value>, ks: seq<string>, v: Value)
    requires ks != []
    ensures Walk(VMap(Store(m, ks, v)), ks) == v
    decreases |ks|
  {
    if |ks| > 1 {
      var sub := if ks[0] in m && m[ks[0]].VMap? then m[ks[0]].m else map[];
      WalkStore(sub, ks[1..], v);
    }
  }

  /** getDeep(putDeep(env, p, v), p) == v: the put succeeds exactly when p
      has a segment, and then the value is read back, provided the segments
      have no blanks around them (putDeep trims them, getDeep does not). */
  lemma GetAfterPut(env: Env, dotted: string, v: Value)
    requires forall j :: 0 <= j < |JavaSplit(dotted, '.')| ==> Trimmed(JavaSplit(dotted, '.')[j])
    ensures PutDeep(env, dotted, v).Ok? <==> JavaSplit(dotted, '.') != []
    ensures PutDeep(env, dotted, v).Ok? ==> Lookup(PutDeep(env, dotted, v).value, dotted) == v
  {
    var ps := JavaSplit(dotted, '.');
    var ks := Segments(dotted);
    forall j | 0 <= j < |ks| ensures ks[j] == ps[j] {
      TrimOfTrimmed(ps[j]);
    }
    assert ks == ps;
    if ks != [] {
      LookupIsWalk(Store(env, ks, v), dotted);
      WalkStore(env, ks, v);
    }
  }

  /** Storing along ks leaves every path that branches off ks as it was:
      q agrees with ks on its first j segments and differs at segment j. */
  lemma {:induction false} StoreKeepsOtherPaths(m: map<string, Value>, ks: seq<string>, v: Value, q: seq<string>, j: nat)
    requires ks != [] && j < |ks| && j < |q| && q[..j] == ks[..j] && q[j] != ks[j]
    ensures Walk(VMap(Store(m, ks, v)), q) == Walk(VMap(m), q)
    decreases j
  {
    var k := ks[0];
    if j > 0 {
      assert q[0] == ks[0];
      var sub := if k in m && m[k].VMap? then m[k].m else map[];
      assert q[1..][..j - 1] == ks[1..][..j - 1];
      StoreKeepsOtherPaths(sub, ks[1..], v, q[1..], j - 1);
      if !(k in m && m[k].VMap?) {
        EmptyWalk(q[1..]);
      }
    }
  }

  /** Nothing is found below an empty map. */
  lemma EmptyWalk(q: seq<string>)
    requires q != []
    ensures Walk(VMap(map[]), q) == VNull
  {
  }

  /** putDeep changes only the top-level entry named by the first segment. */
  lemma PutKeepsOtherNames(env: Env, dotted: string, v: Value, name: string)
    requires PutDeep(env, dotted, v).Ok? && name != Segments(dotted)[0]
    ensures var e := PutDeep(env, dotted, v).value;
      (name in e <==> name in env) && (name in env ==> e[name] == env[name])
  {
  }

  /** putDeep puts a map at every segment but the last, replacing whatever
      non-map value was there. */
  lemma {:induction false} PutMakesMaps(m: map<string, Value>, ks: seq<string>, v: Value, j: nat)
    requires j < |ks| - 1
    ensures Walk(VMap(Store(m, ks, v)), ks[..j + 1]).VMap?
    decreases j
  {
    var k := ks[0];
    var sub := if k in m && m[k].VMap? then m[k].m else map[];
    if j > 0 {
      PutMakesMaps(sub, ks[1..], v, j - 1);
      assert ks[..j + 1][1..] == ks[1..][..j];
    }
  }
}
