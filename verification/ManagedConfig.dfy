/** Managed config blocks: what is stored, reported and skipped, and the bytes their identity hashes. */
module ManagedConfig {
  import opened Bytes

  type Text = seq<byte>

  // ---- Byte order ----

  predicate Less(a: Text, b: Text) {
    b != [] && (a == [] || a[0] < b[0] || (a[0] == b[0] && Less(a[1..], b[1..])))
  }

  lemma {:induction false} LessTotal(a: Text, b: Text)
    ensures Less(a, b) || a == b || Less(b, a)
    ensures !(Less(a, b) && Less(b, a)) && !Less(a, a)
    decreases |a|
  {
    if a != [] {
      LessTotal(a[1..], a[1..]);
      if b != [] && a[0] == b[0] {
        LessTotal(a[1..], b[1..]);
        assert a == [a[0]] + a[1..] && b == [b[0]] + b[1..];
      }
    }
  }

  lemma {:induction false} LessTrans(a: Text, b: Text, c: Text)
    requires Less(a, b) && Less(b, c)
    ensures Less(a, c)
    decreases |a|
  {
    if a != [] && a[0] == b[0] && b[0] == c[0] {
      LessTrans(a[1..], b[1..], c[1..]);
    }
  }

  /** Strictly increasing, so each key once. */
  ghost predicate Sorted(keys: seq<Text>) {
    forall i, j | 0 <= i < j < |keys| :: Less(keys[i], keys[j])
  }

  ghost predicate Lists(keys: seq<Text>, s: set<Text>) {
    Sorted(keys) && forall k :: k in keys <==> k in s
  }

  lemma LeastFirst(keys: seq<Text>, s: set<Text>, k: Text)
    requires Lists(keys, s) && k in s
    ensures keys != [] && (k == keys[0] || Less(keys[0], k))
  {
    var i :| 0 <= i < |keys| && keys[i] == k;
  }

  lemma ListsTail(keys: seq<Text>, s: set<Text>)
    requires Lists(keys, s) && keys != []
    ensures Lists(keys[1..], s - {keys[0]}) && keys[0] in s
  {
    LessTotal(keys[0], keys[0]);
    assert keys == [keys[0]] + keys[1..];
    forall k | k in keys[1..] ensures k != keys[0] {
      var i :| 0 <= i < |keys[1..]| && keys[1..][i] == k;
      assert Less(keys[0], keys[i + 1]);
    }
  }

  /** A set of keys has one sorted listing. */
  lemma {:induction false} ListingUnique(a: seq<Text>, b: seq<Text>, s: set<Text>)
    requires Lists(a, s) && Lists(b, s)
    ensures a == b
    decreases |a|
  {
    assert b != [] ==> b[0] in b;
    if a != [] {
      ListsTail(a, s);
      LeastFirst(b, s, a[0]);
      LeastFirst(a, s, b[0]);
      LessTotal(a[0], b[0]);
      ListsTail(b, s);
      ListingUnique(a[1..], b[1..], s - {a[0]});
      assert a == [a[0]] + a[1..] && b == [b[0]] + b[1..];
    }
  }

  lemma InsertSorted(keys: seq<Text>, s: set<Text>, k: Text, i: nat)
    requires Lists(keys, s) && k !in s && i <= |keys|
    requires forall j | 0 <= j < i :: Less(keys[j], k)
    requires i < |keys| ==> Less(k, keys[i])
    ensures Lists(keys[..i] + [k] + keys[i..], s + {k})
  {
    var more := keys[..i] + [k] + keys[i..];
    forall a, b | 0 <= a < b < |more| ensures Less(more[a], more[b]) {
      if a == i && b > i + 1 {
        LessTrans(k, keys[i], keys[b - 1]);
      } else if a < i && b > i {
        if b > i {
          assert b == i || more[b] == keys[b - 1];
        }
      }
    }
    assert keys == keys[..i] + keys[i..];
  }

  /** sort.Strings over the map's keys, whatever order they come in. */
  method SortedKeys(blocks: map<Text, Text>) returns (keys: seq<Text>)
    ensures Lists(keys, blocks.Keys)
  {
    keys := [];
    var left, done := blocks.Keys, {};
    while left != {}
      invariant left + done == blocks.Keys && left !! done && Lists(keys, done)
      decreases left
    {
      var k :| k in left;
      var i := 0;
      while i < |keys| && Less(keys[i], k)
        invariant 0 <= i <= |keys| && forall j | 0 <= j < i :: Less(keys[j], k)
      {
        i := i + 1;
      }
      if i < |keys| {
        assert keys[i] in keys;
        LessTotal(keys[i], k);
      }
      InsertSorted(keys, done, k, i);
      keys := keys[..i] + [k] + keys[i..];
      left, done := left - {k}, done + {k};
    }
  }

  // ---- The bytes under the hash ----

  function EncodeKeys(keys: seq<Text>, blocks: map<Text, Text>): Text
    requires forall k | k in keys :: k in blocks
  {
    if keys == [] then [] else
    assert keys[0] in keys;
    keys[0] + [0] + blocks[keys[0]] + [0] + EncodeKeys(keys[1..], blocks)
  }

  /** The encoding of a map is that of its one sorted listing. */
  ghost predicate Encodes(bytes: Text, blocks: map<Text, Text>) {
    exists keys :: Lists(keys, blocks.Keys) && bytes == EncodeKeys(keys, blocks)
  }

  ghost predicate NulFree(blocks: map<Text, Text>) {
    forall k | k in blocks :: 0 !in k && 0 !in blocks[k]
  }

  /** What hashManagedBlocks feeds its hash. */
  method HashInput(blocks: map<Text, Text>) returns (bytes: Text)
    ensures Encodes(bytes, blocks)
  {
    var keys := SortedKeys(blocks);
    bytes := [];
    var i := 0;
    assert keys[0..] == keys;
    while i < |keys|
      invariant 0 <= i <= |keys|
      invariant bytes + EncodeKeys(keys[i..], blocks) == EncodeKeys(keys, blocks)
    {
      var k := keys[i];
      assert keys[i..][1..] == keys[i + 1..];
      EncodeStep(bytes, k, blocks[k], EncodeKeys(keys[i + 1..], blocks));
      bytes := bytes + k;
      bytes := bytes + [0];
      bytes := bytes + blocks[k];
      bytes := bytes + [0];
      i := i + 1;
    }
    assert bytes + [] == bytes;
  }

  lemma EncodeStep(before: Text, k: Text, body: Text, rest: Text)
    ensures before + (k + [0] + body + [0] + rest) == before + k + [0] + body + [0] + rest
  {
  }

  /** Two strings up to a separator they do not hold. */
  lemma SplitAtNul(a: Text, x: Text, b: Text, y: Text)
    requires 0 !in a && 0 !in b && a + [0] + x == b + [0] + y
    ensures a == b && x == y
  {
    var l, r := a + [0] + x, b + [0] + y;
    assert l[|a|] == 0 && r[|b|] == 0;
    assert forall i | 0 <= i < |a| :: l[i] == a[i] && l[i] != 0;
    assert forall i | 0 <= i < |b| :: r[i] == b[i] && r[i] != 0;
    assert l[..|a|] == a && r[..|b|] == b;
    assert l[|a| + 1..] == x && r[|b| + 1..] == y;
  }

  ghost predicate Agree(keys: seq<Text>, a: map<Text, Text>, b: map<Text, Text>) {
    forall k | k in keys :: k in a && k in b && a[k] == b[k]
  }

  lemma {:induction false} EncodeKeysInjective(ka: seq<Text>, a: map<Text, Text>, kb: seq<Text>, b: map<Text, Text>)
    requires (forall k | k in ka :: k in a) && (forall k | k in kb :: k in b) && NulFree(a) && NulFree(b)
    requires EncodeKeys(ka, a) == EncodeKeys(kb, b)
    ensures ka == kb && Agree(ka, a, b)
    decreases |ka|
  {
    if ka != [] && kb != [] {
      var k, l := ka[0], kb[0];
      assert k in ka && l in kb;
      var x, y := EncodeKeys(ka[1..], a), EncodeKeys(kb[1..], b);
      EncodeStep([], k, a[k], x);
      EncodeStep([], l, b[l], y);
      assert k + [0] + (a[k] + [0] + x) == l + [0] + (b[l] + [0] + y) by {
        Assoc(k + [0], a[k] + [0], x);
        Assoc(k + [0], a[k], [0]);
        Assoc(l + [0], b[l] + [0], y);
        Assoc(l + [0], b[l], [0]);
      }
      SplitAtNul(k, a[k] + [0] + x, l, b[l] + [0] + y);
      SplitAtNul(a[k], x, b[l], y);
      EncodeKeysInjective(ka[1..], a, kb[1..], b);
      assert ka == [k] + ka[1..] && kb == [l] + kb[1..];
    }
  }

  /** The bytes under the hash tell any two sets of blocks apart when nothing in them is NUL. */
  lemma EncodingInjective(bytes: Text, a: map<Text, Text>, b: map<Text, Text>)
    requires Encodes(bytes, a) && Encodes(bytes, b) && NulFree(a) && NulFree(b)
    ensures a == b
  {
    var ka :| Lists(ka, a.Keys) && bytes == EncodeKeys(ka, a);
    var kb :| Lists(kb, b.Keys) && bytes == EncodeKeys(kb, b);
    EncodeKeysInjective(ka, a, kb, b);
    assert a.Keys == b.Keys;
    forall k | k in a ensures a[k] == b[k] {
      assert k in ka;
    }
  }

  /** And a map has one encoding. */
  lemma EncodingUnique(blocks: map<Text, Text>, x: Text, y: Text)
    requires Encodes(x, blocks) && Encodes(y, blocks)
    ensures x == y
  {
    var kx :| Lists(kx, blocks.Keys) && x == EncodeKeys(kx, blocks);
    var ky :| Lists(ky, blocks.Keys) && y == EncodeKeys(ky, blocks);
    ListingUnique(kx, ky, blocks.Keys);
  }

  /** A NUL in a body can make two different sets look alike. */
  lemma NulCollides()
    ensures var one, two: map<Text, Text> := map[[1] := [2, 0, 3, 0, 4]], map[[1] := [2], [3] := [4]];
            one != two && exists bytes :: Encodes(bytes, one) && Encodes(bytes, two)
  {
    var one: map<Text, Text>, two: map<Text, Text> := map[[1] := [2, 0, 3, 0, 4]], map[[1] := [2], [3] := [4]];
    var bytes: Text := [1, 0, 2, 0, 3, 0, 4, 0];
    var k1: seq<Text>, k2: seq<Text> := [[1]], [[1], [3]];
    assert Lists(k1, one.Keys) && Lists(k2, two.Keys);
    assert k1[1..] == [] && k2[1..] == [[3]] && k2[1..][1..] == [];
    assert EncodeKeys(k1, one) == bytes;
    assert EncodeKeys([[3]], two) == [3, 0, 4, 0];
    assert EncodeKeys(k2, two) == bytes;
    assert Encodes(bytes, one) && Encodes(bytes, two);
    assert [3] in two && [3] !in one;
  }
}
