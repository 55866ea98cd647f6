/** How 16-bit words reach the bus: big-endian byte pairs, sent either one
    write per word or gathered into 32-byte chunks. */
module Encoding {
  import opened Bus

  /** `u16::to_be_bytes`: most significant byte first. */
  function BigEndian(w: u16): (bs: seq<byte>)
    ensures |bs| == 2 && bs[0] as int * 256 + bs[1] as int == w
  {
    [w / 256, w % 256]
  }

  /** Two big-endian pairs are equal exactly when the words are. */
  lemma BigEndianInjective(v: u16, w: u16)
    ensures BigEndian(v) == BigEndian(w) <==> v == w
  {
    var a, b := BigEndian(v), BigEndian(w);
    if a == b {
      assert a[0] as int * 256 + a[1] as int == b[0] as int * 256 + b[1] as int;
    }
  }

  /** The words as one byte stream, each word big-endian, in order. */
  function Flatten(ws: seq<u16>): (bs: seq<byte>)
    ensures |bs| == 2 * |ws|
    decreases |ws|
  {
    if ws == [] then [] else Flatten(ws[..|ws| - 1]) + BigEndian(ws[|ws| - 1])
  }

  /** Bytes 2k and 2k+1 of the stream are word k, big-endian. */
  lemma {:induction false} FlattenAt(ws: seq<u16>, k: nat)
    requires k < |ws|
    ensures Flatten(ws)[2 * k..2 * k + 2] == BigEndian(ws[k])
    ensures Flatten(ws)[2 * k] as int * 256 + Flatten(ws)[2 * k + 1] as int == ws[k]
    decreases |ws|
  {
    var init := ws[..|ws| - 1];
    if k < |ws| - 1 {
      FlattenAt(init, k);
      assert Flatten(ws)[2 * k..2 * k + 2] == Flatten(init)[2 * k..2 * k + 2];
    }
  }

  /** One more word extends the stream by its two bytes. */
  lemma FlattenSnoc(ws: seq<u16>, s: nat, i: nat)
    requires s <= i < |ws|
    ensures Flatten(ws[s..i + 1]) == Flatten(ws[s..i]) + BigEndian(ws[i])
  {
    assert ws[s..i + 1][..i - s] == ws[s..i];
  }

  lemma {:induction false} FlattenAppend(a: seq<u16>, b: seq<u16>)
    ensures Flatten(a + b) == Flatten(a) + Flatten(b)
    decreases |b|
  {
    if b == [] {
      assert a + b == a;
    } else {
      var b' := b[..|b| - 1];
      assert (a + b)[..|a + b| - 1] == a + b';
      assert (a + b)[|a + b| - 1] == b[|b| - 1];
      FlattenAppend(a, b');
    }
  }

  /** The writes of `write_words_buffered` for a whole number of 16-word
      chunks: one write per chunk. */
  function FullChunks(ws: seq<u16>): (plan: seq<Event>)
    requires |ws| % 16 == 0
    ensures |plan| == |ws| / 16
    decreases |ws|
  {
    if ws == [] then [] else FullChunks(ws[..|ws| - 16]) + [Write(Flatten(ws[|ws| - 16..]))]
  }

  /** Chunk k is the 32-byte big-endian image of words 16k to 16k+15. */
  lemma {:induction false} FullChunksAt(ws: seq<u16>, k: nat)
    requires |ws| % 16 == 0 && k < |ws| / 16
    ensures FullChunks(ws)[k] == Write(Flatten(ws[16 * k..16 * k + 16]))
    ensures |FullChunks(ws)[k].bytes| == 32
    decreases |ws|
  {
    var m := |ws| - 16;
    assert FullChunks(ws) == FullChunks(ws[..m]) + [Write(Flatten(ws[m..]))];
    if k < m / 16 {
      assert 16 * k + 16 <= m;
      FullChunksAt(ws[..m], k);
      assert FullChunks(ws)[k] == FullChunks(ws[..m])[k];
      assert ws[..m][16 * k..16 * k + 16] == ws[16 * k..16 * k + 16];
    } else {
      assert 16 * k == m;
      assert FullChunks(ws)[k] == Write(Flatten(ws[m..]));
      assert ws[16 * k..16 * k + 16] == ws[m..];
    }
  }

  /** How many words fill whole chunks. */
  function Whole(n: nat): (m: nat)
    ensures m <= n && m % 16 == 0 && n - m == n % 16 && m / 16 == n / 16
  {
    n - n % 16
  }

  /** The writes of `write_words_buffered`: the full chunks, then one final
      write of what is left in the buffer, possibly nothing. */
  function BufferedPlan(ws: seq<u16>): seq<Event>
  {
    var m := Whole(|ws|);
    FullChunks(ws[..m]) + [Write(Flatten(ws[m..]))]
  }

  /** Chunking: N words take N/16 + 1 writes of which all but the last carry
      32 bytes and the last carries the 2 * (N % 16) bytes left over. */
  lemma BufferedChunking(ws: seq<u16>)
    ensures var plan := BufferedPlan(ws);
            && |plan| == |ws| / 16 + 1
            && OnlyWrites(plan)
            && (forall k :: 0 <= k < |plan| - 1 ==> |plan[k].bytes| == 32)
            && |plan[|plan| - 1].bytes| == 2 * (|ws| % 16)
  {
    var m := Whole(|ws|);
    var plan := BufferedPlan(ws);
    forall k | 0 <= k < |plan| - 1 ensures plan[k].Write? && |plan[k].bytes| == 32 {
      FullChunksAt(ws[..m], k);
    }
  }

  /** The chunks issued so far are a prefix of the whole plan. */
  lemma BufferedPrefix(ws: seq<u16>, j: nat)
    requires j <= |ws| && j % 16 == 0
    ensures FullChunks(ws[..j]) <= BufferedPlan(ws)
  {
    var m := Whole(|ws|);
    var p, q := FullChunks(ws[..j]), FullChunks(ws[..m]);
    forall k | 0 <= k < |p| ensures p[k] == q[k] {
      FullChunksAt(ws[..j], k);
      FullChunksAt(ws[..m], k);
      assert ws[..j][16 * k..16 * k + 16] == ws[..m][16 * k..16 * k + 16];
    }
  }

  /** One more chunk of 16 words extends the full chunks by one write. */
  lemma FullChunksNext(ws: seq<u16>, j: nat)
    requires j + 16 <= |ws| && j % 16 == 0
    ensures FullChunks(ws[..j + 16]) == FullChunks(ws[..j]) + [Write(Flatten(ws[j..j + 16]))]
  {
    assert ws[..j + 16][..j] == ws[..j];
    assert ws[..j + 16][j..] == ws[j..j + 16];
  }

  lemma {:induction false} FullChunksBytes(ws: seq<u16>)
    requires |ws| % 16 == 0
    ensures WrittenBytes(FullChunks(ws)) == Flatten(ws)
    decreases |ws|
  {
    if ws != [] {
      var m := |ws| - 16;
      var chunks, last := FullChunks(ws[..m]), Write(Flatten(ws[m..]));
      assert FullChunks(ws) == chunks + [last];
      FullChunksBytes(ws[..m]);
      WrittenBytesAppend(chunks, [last]);
      assert WrittenBytes([last]) == Flatten(ws[m..]);
      FlattenSplit(ws, m);
    }
  }

  lemma FlattenSplit(ws: seq<u16>, m: nat)
    requires m <= |ws|
    ensures Flatten(ws) == Flatten(ws[..m]) + Flatten(ws[m..])
  {
    assert ws == ws[..m] + ws[m..];
    FlattenAppend(ws[..m], ws[m..]);
  }

  /** Content: the bytes of all buffered writes, taken together, are the
      big-endian flattening of the words in order. */
  lemma BufferedContent(ws: seq<u16>)
    ensures WrittenBytes(BufferedPlan(ws)) == Flatten(ws)
  {
    var m := Whole(|ws|);
    var chunks, last := FullChunks(ws[..m]), Write(Flatten(ws[m..]));
    FullChunksBytes(ws[..m]);
    WrittenBytesAppend(chunks, [last]);
    assert WrittenBytes([last]) == Flatten(ws[m..]);
    FlattenSplit(ws, m);
  }

  /** The writes of the unbuffered path: one 2-byte write per word. */
  function WordWrites(ws: seq<u16>): (plan: seq<Event>)
    ensures |plan| == |ws|
    ensures forall k :: 0 <= k < |ws| ==> plan[k] == Write(BigEndian(ws[k]))
    decreases |ws|
  {
    if ws == [] then []
    else
      var init := WordWrites(ws[..|ws| - 1]);
      assert forall k :: 0 <= k < |init| ==> ws[..|ws| - 1][k] == ws[k];
      init + [Write(BigEndian(ws[|ws| - 1]))]
  }

  lemma {:induction false} WordWritesBytes(ws: seq<u16>)
    ensures OnlyWrites(WordWrites(ws))
    ensures WrittenBytes(WordWrites(ws)) == Flatten(ws)
    decreases |ws|
  {
    if ws != [] {
      var init := ws[..|ws| - 1];
      WordWritesBytes(init);
      WrittenBytesAppend(WordWrites(init), [Write(BigEndian(ws[|ws| - 1]))]);
      assert ws == init + [ws[|ws| - 1]];
      FlattenAppend(init, [ws[|ws| - 1]]);
    }
  }
}
