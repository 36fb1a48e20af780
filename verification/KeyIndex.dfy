/** server_pool_idx of src/gf_server.c: from a key to a server, with hash tags. */
module KeyIndex {
  import opened Pool
  import opened Ejection

  type Byte = bv8
  datatype Tag = NoTag | Tag(open: Byte, close: Byte)

  /** gf_strchr from a place on; the length of the key stands for not found. */
  method Find(key: seq<Byte>, from: nat, ch: Byte) returns (k: nat)
    requires from <= |key|
    ensures from <= k <= |key| && (forall i :: from <= i < k ==> key[i] != ch) && (k < |key| ==> key[k] == ch)
  {
    k := from;
    while k < |key|
      invariant from <= k <= |key| && forall i :: from <= i < k ==> key[i] != ch
    {
      if key[k] == ch {
        return;
      }
      k := k + 1;
    }
  }

  /** The key has a tagged part: what stands between the first opening character and the
      first closing character behind it, if that is not nothing. */
  ghost predicate IsTagged(key: seq<Byte>, tag: Tag, part: seq<Byte>) {
    exists pre, post :: Tagged(key, tag, pre, part, post)
  }

  ghost predicate Tagged(key: seq<Byte>, tag: Tag, pre: seq<Byte>, part: seq<Byte>, post: seq<Byte>) {
    tag.Tag? && part != [] && key == pre + [tag.open] + part + [tag.close] + post && tag.open !in pre &&
      tag.close !in part
  }

  /** The part of the key that is hashed. */
  method HashedPart(key: seq<Byte>, tag: Tag) returns (part: seq<Byte>)
    ensures Hashed(key, tag, part)
  {
    part := key;
    if tag.Tag? {
      var start := Find(key, 0, tag.open);
      var end := 0;
      if start < |key| {
        end := Find(key, start + 1, tag.close);
        if end < |key| && end - start > 1 {
          part := key[start + 1..end];
          assert Tagged(key, tag, key[..start], part, key[end + 1..]);
          return;
        }
      }
      forall other ensures !IsTagged(key, tag, other) {
        forall pre, post ensures !Tagged(key, tag, pre, other, post) {
          Untagged(key, tag, pre, other, post, start, end);
        }
      }
    }
  }

  lemma Untagged(key: seq<Byte>, tag: Tag, pre: seq<Byte>, part: seq<Byte>, post: seq<Byte>, start: nat, end: nat)
    requires tag.Tag? && start <= |key| && (forall i :: 0 <= i < start ==> key[i] != tag.open)
    requires start < |key| ==> key[start] == tag.open
    requires start < |key| ==> start < end <= |key| && (forall i :: start < i < end ==> key[i] != tag.close)
    requires start < |key| && end < |key| ==> key[end] == tag.close && end - start <= 1
    ensures !Tagged(key, tag, pre, part, post)
  {
    if Tagged(key, tag, pre, part, post) {
      TaggedPlaces(key, tag, pre, part, post);
    }
  }

  lemma TaggedPlaces(key: seq<Byte>, tag: Tag, pre: seq<Byte>, part: seq<Byte>, post: seq<Byte>)
    requires Tagged(key, tag, pre, part, post)
    ensures
      var e := |pre| + 1 + |part|;
      && e < |key| && e - |pre| > 1 && key[|pre|] == tag.open && key[e] == tag.close
      && (forall i :: 0 <= i < |pre| ==> key[i] != tag.open) && (forall i :: |pre| < i < e ==> key[i] != tag.close)
      && part == key[|pre| + 1..e]
  {
    var e := |pre| + 1 + |part|;
    assert forall i :: 0 <= i < |pre| ==> key[i] == pre[i] && pre[i] in pre;
    assert forall i :: |pre| < i < e ==> key[i] == part[i - |pre| - 1] && part[i - |pre| - 1] in part;
  }

  /** A key has one tagged part at most, so keys that differ only around it go together. */
  lemma TagUnique(key: seq<Byte>, tag: Tag, part: seq<Byte>, other: seq<Byte>)
    requires IsTagged(key, tag, part) && IsTagged(key, tag, other)
    ensures part == other
  {
    var p, q :| Tagged(key, tag, p, part, q);
    var p', q' :| Tagged(key, tag, p', other, q');
    hide Tagged;
    TaggedPlaces(key, tag, p, part, q);
    TaggedPlaces(key, tag, p', other, q');
    assert |p| == |p'|;
    assert |part| == |other|;
  }

  /** What is hashed for a key. */
  ghost predicate Hashed(key: seq<Byte>, tag: Tag, part: seq<Byte>) {
    IsTagged(key, tag, part) || (part == key && forall other :: !IsTagged(key, tag, other))
  }

  /** server_pool_idx with server_pool_hash: an empty part hashes to 0, and a pool of one
      server needs no hash. */
  method Index(pool: ServerPool, key: seq<Byte>, tag: Tag, keyHash: seq<Byte> -> nat)
    returns (index: nat, part: seq<Byte>)
    requires pool.Valid() && pool.nlive > 0
    ensures index < |pool.servers|
    ensures |pool.servers| > 1 ==> Live(pool.eject, pool.seen[index], pool.at)
    ensures |pool.servers| > 1 ==> Hashed(key, tag, part)
    ensures |pool.servers| > 1 ==> index == pool.IndexOf(if part == [] then 0 else keyHash(part))
  {
    hide Hashed, Live;
    if |pool.servers| == 1 {
      return 0, key;
    }
    part := HashedPart(key, tag);
    var hash := if part == [] then 0 else keyHash(part);
    index := pool.Dispatch(hash);
  }
}
