/** Text from the peer, cut to a fixed number of bytes on a character boundary
    before it is quoted. A `String` is its UTF-8 bytes here; what they spell is
    a ghost beside them. */
module Bounded {
  import opened Utf8

  const MAX_QUOTED_BYTES: nat := 128
  const ELLIPSIS: string := "\U{2026}"

  /** The longest prefix of `s` that takes at most `room` bytes. */
  function Fits(s: string, room: nat): string {
    if s == "" || |Encode(s[0])| > room then "" else [s[0]] + Fits(s[1..], room - |Encode(s[0])|)
  }

  /** What a quotation of `s` is to be. */
  function Shortened(s: string): string {
    if |EncodeAll(s)| <= MAX_QUOTED_BYTES then s else Fits(s, MAX_QUOTED_BYTES) + ELLIPSIS
  }

  /** `str::is_char_boundary`, inside the text. */
  predicate IsBoundary(bytes: seq<Byte>, i: nat)
    requires i <= |bytes|
  {
    i == 0 || i == |bytes| || !IsContinuation(bytes[i])
  }

  lemma {:induction false} EncodeAllConcat(a: string, b: string)
    ensures EncodeAll(a + b) == EncodeAll(a) + EncodeAll(b)
    decreases |a|
  {
    hide Encode;
    if a == "" {
      assert a + b == b;
    } else {
      assert (a + b)[1..] == a[1..] + b;
      EncodeAllConcat(a[1..], b);
      assert Encode(a[0]) + (EncodeAll(a[1..]) + EncodeAll(b)) == Encode(a[0]) + EncodeAll(a[1..]) + EncodeAll(b);
    }
  }

  lemma {:induction false} FitsIsPrefix(s: string, room: nat)
    ensures |EncodeAll(Fits(s, room))| <= room && |EncodeAll(Fits(s, room))| <= |EncodeAll(s)|
    ensures EncodeAll(s)[..|EncodeAll(Fits(s, room))|] == EncodeAll(Fits(s, room))
  {
    hide Encode;
    if s != "" && |Encode(s[0])| <= room {
      var rest := Fits(s[1..], room - |Encode(s[0])|);
      FitsIsPrefix(s[1..], room - |Encode(s[0])|);
      assert ([s[0]] + rest)[1..] == rest;
      assert EncodeAll(Fits(s, room)) == Encode(s[0]) + EncodeAll(rest);
    }
  }

  /** A place in the bytes is a boundary exactly when some prefix ends there. */
  lemma {:induction false} BoundariesEndPrefixes(s: string, i: nat)
    requires i <= |EncodeAll(s)|
    ensures IsBoundary(EncodeAll(s), i) <==> |EncodeAll(Fits(s, i))| == i
  {
    if s != "" {
      var e := Encode(s[0]);
      var rest := EncodeAll(s[1..]);
      hide Encode;
      if i >= |e| {
        BoundariesEndPrefixes(s[1..], i - |e|);
        var fit := Fits(s[1..], i - |e|);
        assert ([s[0]] + fit)[1..] == fit;
        assert EncodeAll(Fits(s, i)) == e + EncodeAll(fit);
        assert i < |EncodeAll(s)| ==> EncodeAll(s)[i] == rest[i - |e|];
        assert rest != [] ==> !IsContinuation(rest[0]) by {
          FirstIsNoContinuation(s[1..]);
        }
      } else {
        assert i > 0 ==> EncodeAll(s)[i] == e[i];
      }
    }
  }

  lemma FirstIsNoContinuation(s: string)
    ensures EncodeAll(s) != [] ==> !IsContinuation(EncodeAll(s)[0])
  {
  }

  lemma {:induction false} FitsStays(s: string, room: nat, less: nat)
    requires |EncodeAll(Fits(s, room))| <= less <= room
    ensures Fits(s, less) == Fits(s, room)
  {
    hide Encode;
    if s != "" && |Encode(s[0])| <= room {
      var rest := Fits(s[1..], room - |Encode(s[0])|);
      assert ([s[0]] + rest)[1..] == rest;
      assert EncodeAll(Fits(s, room)) == Encode(s[0]) + EncodeAll(rest);
      FitsStays(s[1..], room - |Encode(s[0])|, less - |Encode(s[0])|);
    }
  }

  /** Counts down from `room` to a boundary. */
  method CutAt(bytes: seq<Byte>, room: nat, ghost s: string) returns (cut: nat)
    requires bytes == EncodeAll(s) && room <= |bytes|
    ensures cut <= |bytes| && bytes[..cut] == EncodeAll(Fits(s, room))
  {
    cut := room;
    FitsIsPrefix(s, room);
    while !IsBoundary(bytes, cut)
      invariant |EncodeAll(Fits(s, room))| <= cut <= room
      decreases cut
    {
      FitsStays(s, room, cut);
      BoundariesEndPrefixes(s, cut);
      cut := cut - 1;
    }
    FitsStays(s, room, cut);
    BoundariesEndPrefixes(s, cut);
  }

  method Bound(bytes: seq<Byte>, ghost s: string) returns (r: seq<Byte>)
    requires bytes == EncodeAll(s)
    ensures r == EncodeAll(Shortened(s))
  {
    if |bytes| <= MAX_QUOTED_BYTES {
      return bytes;
    }
    var cut := CutAt(bytes, MAX_QUOTED_BYTES, s);
    r := bytes[..cut] + EncodeAll(ELLIPSIS);
    EncodeAllConcat(Fits(s, MAX_QUOTED_BYTES), ELLIPSIS);
  }

  /** The sink that stops a formatter part-way. */
  class Sink {
    var out: seq<Byte>

    constructor ()
      ensures out == []
    {
      out := [];
    }

    method WriteStr(bytes: seq<Byte>, ghost s: string) returns (ok: bool)
      requires bytes == EncodeAll(s) && |out| <= MAX_QUOTED_BYTES
      modifies this
      ensures var room := MAX_QUOTED_BYTES - |old(out)|;
        && ok == (|bytes| <= room)
        && out == old(out) + (if ok then bytes else EncodeAll(Fits(s, room)))
    {
      var room := MAX_QUOTED_BYTES - |out|;
      if |bytes| <= room {
        out := out + bytes;
        return true;
      }
      var cut := CutAt(bytes, room, s);
      out := out + bytes[..cut];
      ok := false;
    }
  }

  /** A rendering, as the formatter happens to write it. */
  function Joined(pieces: seq<string>, from: nat): string
    requires from <= |pieces|
    decreases |pieces| - from
  {
    if from == |pieces| then "" else pieces[from] + Joined(pieces, from + 1)
  }

  lemma {:induction false} FitsAfter(a: string, b: string, room: nat)
    requires |EncodeAll(a)| <= room
    ensures Fits(a + b, room) == a + Fits(b, room - |EncodeAll(a)|)
    decreases |a|
  {
    hide Encode;
    if a == "" {
      assert a + b == b;
    } else {
      assert (a + b)[1..] == a[1..] + b;
      FitsAfter(a[1..], b, room - |Encode(a[0])|);
    }
  }

  lemma {:induction false} FitsWithin(a: string, b: string, room: nat)
    requires |EncodeAll(a)| > room
    ensures Fits(a + b, room) == Fits(a, room)
    decreases |a|
  {
    hide Encode;
    if a != "" && |Encode(a[0])| <= room {
      assert (a + b)[1..] == a[1..] + b;
      FitsWithin(a[1..], b, room - |Encode(a[0])|);
    }
  }

  /** The sink gives what cutting the whole rendering would, however the
      rendering is cut into writes. */
  method BoundDebug(pieces: seq<seq<Byte>>, ghost spelled: seq<string>) returns (r: seq<Byte>)
    requires |pieces| == |spelled| && forall k :: 0 <= k < |pieces| ==> pieces[k] == EncodeAll(spelled[k])
    ensures r == EncodeAll(Shortened(Joined(spelled, 0)))
  {
    var sink := new Sink();
    ghost var done := "";
    var n := 0;
    assert done + Joined(spelled, 0) == Joined(spelled, 0);
    while n < |pieces|
      invariant 0 <= n <= |pieces|
      invariant done + Joined(spelled, n) == Joined(spelled, 0)
      invariant sink.out == EncodeAll(done) && |sink.out| <= MAX_QUOTED_BYTES
    {
      ghost var piece, rest := spelled[n], Joined(spelled, n + 1);
      ghost var room := MAX_QUOTED_BYTES - |sink.out|;
      assert done + (piece + rest) == (done + piece) + rest;
      EncodeAllConcat(done, piece);
      var ok := sink.WriteStr(pieces[n], piece);
      if !ok {
        Overflow(done, piece, rest);
        r := sink.out + EncodeAll(ELLIPSIS);
        EncodeAllConcat(done + Fits(piece, room), ELLIPSIS);
        EncodeAllConcat(done, Fits(piece, room));
        return;
      }
      done := done + piece;
      n := n + 1;
    }
    assert done == Joined(spelled, 0);
    r := sink.out;
  }

  lemma Overflow(done: string, piece: string, rest: string)
    requires |EncodeAll(done)| <= MAX_QUOTED_BYTES && |EncodeAll(done)| + |EncodeAll(piece)| > MAX_QUOTED_BYTES
    ensures Shortened(done + (piece + rest)) == done + Fits(piece, MAX_QUOTED_BYTES - |EncodeAll(done)|) + ELLIPSIS
  {
    EncodeAllConcat(done, piece + rest);
    EncodeAllConcat(piece, rest);
    FitsAfter(done, piece + rest, MAX_QUOTED_BYTES);
    FitsWithin(piece, rest, MAX_QUOTED_BYTES - |EncodeAll(done)|);
  }

  /** A quotation is the text itself if that takes at most 128 bytes; otherwise
      its longest prefix that does, within four bytes of that, with an ellipsis. */
  lemma ShortenedIsBounded(s: string) returns (k: nat)
    ensures |EncodeAll(s)| <= 128 ==> Shortened(s) == s
    ensures |EncodeAll(s)| > 128 ==>
      && k < |s| && Shortened(s) == s[..k] + "\U{2026}"
      && 124 < |EncodeAll(s[..k])| <= 128 < |EncodeAll(s[..k + 1])|
    ensures |EncodeAll(Shortened(s))| <= 131
  {
    k := |Fits(s, 128)|;
    FitsIsPrefix(s, 128);
    EncodeAllConcat(Fits(s, 128), ELLIPSIS);
    EncodedOne(ELLIPSIS[0]);
    if |EncodeAll(s)| > 128 {
      FitsFills(s, 128);
      FitsIsLongest(s, 128);
    }
  }

  lemma {:induction false} FitsIsLongest(s: string, room: nat)
    requires |EncodeAll(s)| > room
    ensures var k := |Fits(s, room)|; k < |s| && Fits(s, room) == s[..k] && |EncodeAll(s[..k + 1])| > room
  {
    hide Encode;
    if |Encode(s[0])| <= room {
      FitsIsLongest(s[1..], room - |Encode(s[0])|);
      var k := |Fits(s, room)|;
      assert s[..k + 1][1..] == s[1..][..k];
    } else {
      EncodedOne(s[0]);
      assert s[..1] == [s[0]];
    }
  }

  lemma EncodedOne(c: char)
    ensures EncodeAll([c]) == Encode(c)
  {
    assert [c][1..] == "";
  }

  lemma {:induction false} FitsFills(s: string, room: nat)
    requires |EncodeAll(s)| > room
    ensures |EncodeAll(Fits(s, room))| + 4 > room
  {
    hide Encode;
    if |Encode(s[0])| <= room {
      var rest := Fits(s[1..], room - |Encode(s[0])|);
      assert ([s[0]] + rest)[1..] == rest;
      assert EncodeAll(Fits(s, room)) == Encode(s[0]) + EncodeAll(rest);
      FitsFills(s[1..], room - |Encode(s[0])|);
    }
  }
}
