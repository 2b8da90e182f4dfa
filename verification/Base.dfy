/** Vocabulary shared by every part of the model. */
module Base {

  /** One octet of an opaque, already encrypted blob. */
  newtype Byte = x: int | 0 <= x < 256

  type Bytes = seq<Byte>

  /** SHA-256 rendered as lowercase hex. It is a parameter of every theorem: nothing about it is assumed. */
  type Hash = Bytes -> string

  datatype Option<+T> = None | Some(value: T)

  /** What a read of a request body can report besides its bytes; Lost is any other transport error. */
  datatype ReadErr = NoErr | EOF | UnexpectedEOF | Lost | BodyTooLarge | DigestMismatch

  lemma Regroup(a: Bytes, b: Bytes, c: Bytes)
    ensures (a + b) + c == a + (b + c)
  {
  }

  /** The concatenation of a list of chunks, in order. */
  function Flat(chunks: seq<Bytes>): Bytes {
    if chunks == [] then [] else Flat(chunks[..|chunks| - 1]) + chunks[|chunks| - 1]
  }

  lemma FlatSnoc(chunks: seq<Bytes>, last: Bytes)
    ensures Flat(chunks + [last]) == Flat(chunks) + last
  {
    assert (chunks + [last])[..|chunks|] == chunks;
  }

  lemma {:induction false} FlatAppend(a: seq<Bytes>, b: seq<Bytes>)
    ensures Flat(a + b) == Flat(a) + Flat(b)
    decreases |b|
  {
    if b == [] {
      assert a + b == a;
    } else {
      var init, last := b[..|b| - 1], b[|b| - 1];
      assert a + b == (a + init) + [last];
      FlatSnoc(a + init, last);
      FlatAppend(a, init);
      assert b == init + [last];
      FlatSnoc(init, last);
    }
  }

  lemma FlatFirst(chunks: seq<Bytes>)
    requires chunks != []
    ensures Flat(chunks) == chunks[0] + Flat(chunks[1..])
  {
    assert chunks == [chunks[0]] + chunks[1..];
    FlatAppend([chunks[0]], chunks[1..]);
    assert [chunks[0]][..0] == [];
  }

  ghost function AnyOf<T>(s: set<T>): (x: T)
    requires s != {}
    ensures x in s
  {
    var x :| x in s;
    x
  }

  lemma {:induction false} MaxExists(s: set<int>)
    requires s != {}
    ensures exists m :: m in s && forall y :: y in s ==> y <= m
    decreases |s|
  {
    var x := AnyOf(s);
    var rest := s - {x};
    assert forall y :: y in s ==> y == x || y in rest;
    if rest == {} {
      assert x in s && forall y :: y in s ==> y <= x;
    } else {
      MaxExists(rest);
      var m :| m in rest && forall y :: y in rest ==> y <= m;
      var top := if x < m then m else x;
      assert top in s && forall y :: y in s ==> y <= top;
    }
  }

  /** The largest element of a non-empty set. */
  function MaxOf(s: set<int>): (m: int)
    requires s != {}
    ensures m in s && forall y :: y in s ==> y <= m
  {
    MaxExists(s);
    var m :| m in s && forall y :: y in s ==> y <= m;
    m
  }
}
