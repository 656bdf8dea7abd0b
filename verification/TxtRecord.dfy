/** TXT record data (section 3.3.14 of RFC 1035): strings of at most 255 bytes, each behind its
    length (`dns_txt_push` and `dns_txt_parse`, libs/async/src/dns/dns.c:3294-3364). */
module TxtRecord {
  import opened Bytes

  const CHUNK: nat := 255

  /** The text cut into length-prefixed strings. */
  function Chunks(t: seq<Byte>): seq<Byte> {
    if t == [] then []
    else
      var n := Min(CHUNK, |t|);
      [n] + t[..n] + Chunks(t[n..])
  }

  lemma ChunksHead(u: seq<Byte>, n: nat)
    requires u != [] && n == Min(255, |u|)
    ensures Chunks(u) == [n] + u[..n] + Chunks(u[n..])
  {
  }

  lemma {:induction false} ChunksFrom(t: seq<Byte>, k: nat)
    requires 255 * k <= |t|
    ensures 256 * k <= |Chunks(t)| && Chunks(t)[256 * k..] == Chunks(t[255 * k..])
  {
    hide Chunks;
    if k > 0 {
      ChunksFrom(t, k - 1);
      var u := t[255 * (k - 1)..];
      ChunksHead(u, 255);
      assert u[255..] == t[255 * k..];
      assert Chunks(t)[256 * k..] == Chunks(t)[256 * (k - 1)..][256..];
    }
  }

  /** Section 3.3 of RFC 1035: string `k` begins at `256 * k` with its length in front.  Every string but the
      last has 255 bytes, and together they are the text. */
  lemma ChunkAt(t: seq<Byte>, k: nat)
    requires 255 * k < |t|
    ensures 256 * k <= |Chunks(t)|
    ensures var n, rest := Min(255, |t| - 255 * k), Chunks(t)[256 * k..];
            n < |rest| && rest[0] == n && rest[1..1 + n] == t[255 * k..255 * k + n]
    ensures |t| <= 255 * (k + 1) ==> |Chunks(t)| == |t| + k + 1
  {
    hide Chunks;
    ChunksFrom(t, k);
    var u, n := t[255 * k..], Min(255, |t| - 255 * k);
    ChunksHead(u, n);
    if n == |u| { NoChunks(u[n..]); }
  }

  lemma NoChunks(u: seq<Byte>)
    ensures Chunks(u) == [] <==> u == []
  {
  }

  /** The length that `dns_txt_push` computes beforehand. */
  function DataLength(len: nat): nat { len + (len + (CHUNK - 1)) / CHUNK }

  lemma {:induction false} ChunksLength(t: seq<Byte>)
    ensures |Chunks(t)| == DataLength(|t|)
  {
    if t != [] { ChunksLength(t[Min(CHUNK, |t|)..]); }
  }

  /** The strings joined again; nothing if a length runs past the end of the data, or the text
      past the `lim` bytes there are for it. */
  function Joined(rd: seq<Byte>, lim: nat): Option<seq<Byte>>
    decreases |rd|
  {
    if rd == [] then Some([])
    else
      var n := rd[0] as nat;
      if |rd| - 1 < n || lim < n then None
      else
        match Joined(rd[1 + n..], lim - n)
        case None => None
        case Some(rest) => Some(rd[1..1 + n] + rest)
  }

  /** A text comes back whole exactly if there is room for it. */
  lemma {:induction false} ChunksJoin(t: seq<Byte>, lim: nat)
    ensures Joined(Chunks(t), lim) == if |t| <= lim then Some(t) else None
  {
    if t != [] {
      var n := Min(CHUNK, |t|);
      var c := Chunks(t);
      assert c[1..1 + n] == t[..n] && c[1 + n..] == Chunks(t[n..]);
      if n <= lim { ChunksJoin(t[n..], lim - n); }
      assert t == t[..n] + t[n..];
    }
  }

  /** The bytes of a record's data as `dns_txt_push` appends them. */
  function Pushed(t: seq<Byte>): seq<Byte> { Word(DataLength(|t|)) + Chunks(t) }

  /** The length written first is the number of bytes that follow it. */
  lemma LengthIsRight(t: seq<Byte>)
    requires DataLength(|t|) < 0x1_0000
    ensures var p := Pushed(t);
            |p| == 2 + (p[0] as nat * 256 + p[1] as nat) && p[2..] == Chunks(t)
  {
    hide Chunks;
    ChunksLength(t);
    WordValue(DataLength(|t|));
  }

  lemma WordValue(n: nat)
    requires n < 0x1_0000
    ensures n / 256 % 256 * 256 + n % 256 == n
  {
  }

  method Copy(data: array<Byte>, p: nat, bytes: seq<Byte>)
    requires p + |bytes| <= data.Length
    modifies data
    ensures data[..p + |bytes|] == old(data[..p]) + bytes
  {
    ghost var d := data[..p];
    forall i | 0 <= i < |bytes| { data[p + i] := bytes[i]; }
    assert data[..p + |bytes|] == d + bytes;
  }

  method CopyBehind(data: array<Byte>, p: nat, bytes: seq<Byte>, ghost d: seq<Byte>, ghost done: seq<Byte>)
    requires p + |bytes| <= data.Length && data[..p] == d + done
    modifies data
    ensures data[..p + |bytes|] == d + (done + bytes)
  {
    Copy(data, p, bytes);
    assert d + done + bytes == d + (done + bytes);
  }

  /** `dns_txt_push`: the text is appended exactly if the packet has room for its length, its
      strings and their lengths; otherwise the packet ends where it did. */
  method Push(data: array<Byte>, end: nat, txt: seq<Byte>) returns (end': nat)
    requires end <= data.Length <= 0x1_0000
    modifies data
    ensures data[..end] == old(data[..end])
    ensures data.Length - end < |Pushed(txt)| ==> end' == end
    ensures data.Length - end >= |Pushed(txt)| ==> end' <= data.Length && data[..end'] == old(data[..end]) + Pushed(txt)
  {
    hide Chunks;
    ghost var d := data[..end];
    ChunksLength(txt);
    ChunksOfNothing();
    if data.Length - end < 2 { return end; }
    var n := |txt| + (|txt| + 254) / 255;
    Copy(data, end, [n / 256 % 256, n % 256]);
    assert data[..end] == d by { Prefix(data, end, d, [n / 256 % 256, n % 256]); }
    var p, src := end + 2, 0;
    ghost var done: seq<Byte> := Word(n);
    assert txt[0..] == txt;
    while src < |txt|
      invariant 0 <= src <= |txt| && end + |done| == p <= data.Length
      invariant data[..p] == d + done && done + Chunks(txt[src..]) == Pushed(txt)
      decreases |txt| - src
    {
      n := Min(CHUNK, |txt| - src);
      Unfold(done, txt, src, n);
      if p >= data.Length || data.Length - (p + 1) < n {
        assert data[..end] == d by { Prefix(data, end, d, done); }
        return end;
      }
      CopyBehind(data, p, [n] + txt[src..src + n], d, done);
      done := done + ([n] + txt[src..src + n]);
      p := p + 1 + n;
      src := src + n;
    }
    assert txt[src..] == [] && done + [] == done;
    assert data[..end] == d by { Prefix(data, end, d, done); }
    end' := p;
  }

  lemma ChunksOfNothing()
    ensures Chunks([]) == []
  {
  }

  lemma Unfold(done: seq<Byte>, txt: seq<Byte>, src: nat, n: nat)
    requires src < |txt| && n == Min(CHUNK, |txt| - src)
    ensures done + Chunks(txt[src..]) == done + ([n] + txt[src..src + n]) + Chunks(txt[src + n..])
    ensures |Chunks(txt[src..])| >= 1 + n
  {
    var rest := txt[src..];
    assert rest[..n] == txt[src..src + n] && rest[n..] == txt[src + n..];
    var tail := Chunks(rest[n..]);
    assert done + ([n] + rest[..n] + tail) == done + ([n] + rest[..n]) + tail;
  }

  lemma Prefix(data: array<Byte>, end: nat, d: seq<Byte>, more: seq<Byte>)
    requires end == |d| && end + |more| <= data.Length && data[..end + |more|] == d + more
    ensures data[..end] == d
  {
    assert data[..end] == data[..end + |more|][..end];
  }

  /** `dns_txt_parse` of the `len` bytes of data from `p`, into `lim` bytes. */
  method Parse(data: array<Byte>, p: nat, len: nat, lim: nat) returns (txt: Option<seq<Byte>>)
    requires p + len <= data.Length
    ensures txt == Joined(data[p..p + len], lim)
  {
    hide Joined;
    ghost var rd := data[p..p + len];
    var src: nat, dst: seq<Byte> := p, [];
    After([], Joined(rd, lim));
    while src < p + len
      invariant p <= src <= p + len && |dst| <= lim
      invariant Joined(rd, lim) == Behind(dst, Joined(data[src..p + len], lim - |dst|))
    {
      ghost var rest := data[src..p + len];
      var n := data[src] as nat;
      assert rest[0] == data[src];
      JoinStep(dst, rest, lim - |dst|);
      src := src + 1;
      if p + len - src < n || lim - |dst| < n { return None; }
      assert rest[1..1 + n] == data[src..src + n] && rest[1 + n..] == data[src + n..p + len];
      dst := dst + data[src..src + n];
      src := src + n;
    }
    assert data[src..p + len] == [];
    JoinedNothing(lim - |dst|);
    assert dst + [] == dst;
    txt := Some(dst);
  }

  function Behind(dst: seq<Byte>, r: Option<seq<Byte>>): Option<seq<Byte>> {
    match r
    case None => None
    case Some(rest) => Some(dst + rest)
  }

  lemma After(dst: seq<Byte>, r: Option<seq<Byte>>)
    requires dst == []
    ensures Behind(dst, r) == r
  {
    if r.Some? { assert [] + r.value == r.value; }
  }

  lemma JoinedNothing(lim: nat)
    ensures Joined([], lim) == Some([])
  {
  }

  lemma JoinStep(dst: seq<Byte>, rest: seq<Byte>, lim: nat)
    requires rest != []
    ensures var n := rest[0] as nat;
            Behind(dst, Joined(rest, lim)) ==
              if |rest| - 1 < n || lim < n then None
              else Behind(dst + rest[1..1 + n], Joined(rest[1 + n..], lim - n))
  {
    var n := rest[0] as nat;
    if n < |rest| && n <= lim && Joined(rest[1 + n..], lim - n).Some? {
      var r := Joined(rest[1 + n..], lim - n).value;
      assert dst + (rest[1..1 + n] + r) == dst + rest[1..1 + n] + r;
    }
  }

  /** Parsing after pushing returns the same text, if it fits. */
  lemma RoundTrip(t: seq<Byte>, lim: nat)
    requires DataLength(|t|) < 0x1_0000 && |t| <= lim
    ensures Joined(Pushed(t)[2..], lim) == Some(t)
  {
    LengthIsRight(t);
    ChunksJoin(t, lim);
  }
}
