/** The byte ring of a message buffer: each message is a four-byte size, its bytes and padding
    to a multiple of four, and may go round the end of the buffer. */
module MessageRing {
  import opened Tasks

  /** The content of one cell; only those of headers are ever computed with. */
  type byte = int

  type Message = seq<byte>

  const HEADERSZ := 4

  predicate Aligned(x: int) {
    x % 4 == 0
  }

  function Round(sz: nat): (r: nat)
    ensures Aligned(r) && sz <= r < sz + 4
  {
    (sz + 3) / 4 * 4
  }

  /** The bytes a message takes. */
  function Space(msgsz: nat): (r: nat)
    ensures Aligned(r)
  {
    AlignedSum(Round(msgsz), 0);
    HEADERSZ + Round(msgsz)
  }

  function Used(ms: seq<Message>): (r: nat)
    ensures Aligned(r)
  {
    if ms == [] then 0
    else
      AlignedSum(Space(|ms[0]|), Used(ms[1..]));
      Space(|ms[0]|) + Used(ms[1..])
  }

  lemma {:induction false} UsedAppend(ms: seq<Message>, m: Message)
    ensures Used(ms + [m]) == Used(ms) + Space(|m|)
  {
    if ms == [] {
      assert ms + [m] == [m];
    } else {
      assert (ms + [m])[1..] == ms[1..] + [m];
      UsedAppend(ms[1..], m);
    }
  }

  /** `mbf_free` need not round: the free space is a multiple of four. */
  lemma UnroundedTestSuffices(msgsz: nat, frbufsz: nat)
    requires Aligned(frbufsz)
    ensures HEADERSZ + msgsz <= frbufsz <==> Space(msgsz) <= frbufsz
  {
  }

  lemma AlignedSum(x: int, y: int)
    requires Aligned(x) && Aligned(y)
    ensures Aligned(x + y) && Aligned(x - y) && Aligned(x + HEADERSZ)
    ensures x < y ==> x + HEADERSZ <= y
  {
    var p, q := x / 4, y / 4;
    assert x == 4 * p && y == 4 * q;
    assert x + y == 4 * (p + q) && x - y == 4 * (p - q) && x + HEADERSZ == 4 * (p + 1);
  }

  /** What is left of a message after an aligned part. */
  lemma RoundRest(sz: nat, part: nat)
    requires Aligned(part) && part <= sz
    ensures Round(sz) == part + Round(sz - part)
  {
  }

  /** The place `d` bytes after place `h` in a ring of `n` bytes. */
  function At(n: nat, h: nat, d: nat): (p: nat)
    requires h < n || (h == 0 && n == 0)
    requires d <= n
    ensures p < n || n == 0
    ensures n == 0 ==> p == 0
  {
    if h + d >= n then h + d - n else h + d
  }

  lemma RoundFits(sz: nat, room: nat)
    requires Aligned(room) && sz <= room
    ensures Round(sz) <= room
  {
  }

  /** Where a message at distance `d` goes round, and where the next one starts. */
  lemma NextPlace(n: nat, h: nat, d: nat, sz: nat)
    requires Aligned(n) && Aligned(h) && Aligned(d) && h < n && d + Round(sz) <= n
    ensures var at := At(n, h, d);
            if n - at < sz then
              && At(n, h, d + (n - at)) == 0 && d + (n - at) <= n && Round(sz - (n - at)) < n
              && At(n, h, d + Round(sz)) == Round(sz - (n - at))
            else
              && at + Round(sz) <= n
              && At(n, h, d + Round(sz)) == if at + Round(sz) >= n then 0 else at + Round(sz)
  {
    var at := At(n, h, d);
    AlignedSum(h, d);
    AlignedSum(h + d, n);
    AlignedSum(n, at);
    if n - at < sz {
      RoundRest(sz, n - at);
    } else {
      RoundFits(sz, n - at);
    }
    hide Aligned, Round;
  }

  /** A header never goes round. */
  lemma AfterHeader(n: nat, h: nat, d: nat)
    requires Aligned(n) && Aligned(h) && Aligned(d) && h < n && d + HEADERSZ <= n
    ensures At(n, h, d) + HEADERSZ <= n && Aligned(d + HEADERSZ) && Aligned(At(n, h, d))
    ensures At(n, h, d + HEADERSZ) == if At(n, h, d) + HEADERSZ >= n then 0 else At(n, h, d) + HEADERSZ
  {
    AlignedSum(h, d);
    AlignedSum(h + d, n);
    AlignedSum(At(n, h, d), n);
    AlignedSum(d, 0);
  }

  /** A size in four bytes, the least significant first. */
  function Header(sz: nat): (r: seq<byte>)
    requires sz < 0x8000_0000
    ensures |r| == 4
  {
    [sz % 256, sz / 0x100 % 256, sz / 0x1_0000 % 256, sz / 0x100_0000]
  }

  function Unheader(b: seq<byte>): int
    requires |b| == 4
  {
    b[0] + 0x100 * b[1] + 0x1_0000 * b[2] + 0x100_0000 * b[3]
  }

  lemma HeaderRoundTrip(sz: nat)
    requires sz < 0x8000_0000
    ensures Unheader(Header(sz)) == sz
  {
    var q := sz / 0x100;
    var q2 := q / 0x100;
    assert q2 == sz / 0x1_0000;
    assert q2 / 0x100 == sz / 0x100_0000;
  }

  /** The `|x|` bytes at distance `d` from place `h`, going round the end, are `x`. */
  ghost predicate Holds(b: seq<byte>, h: nat, d: nat, x: seq<byte>) {
    && (h < |b| || (h == 0 && |b| == 0)) && d + |x| <= |b|
    && forall k :: 0 <= k < |x| ==> b[At(|b|, h, d + k)] == x[k]
  }

  /** From distance `d` on, the messages `ms` are stored one after the other. */
  ghost predicate Stored(b: seq<byte>, h: nat, d: nat, ms: seq<Message>)
    decreases |ms|
  {
    && (h < |b| || (h == 0 && |b| == 0)) && d + Used(ms) <= |b| < 0x8000_0000
    && (ms == [] || (
          && Holds(b, h, d, Header(|ms[0]|)) && Holds(b, h, d + HEADERSZ, ms[0])
          && Stored(b, h, d + Space(|ms[0]|), ms[1..])))
  }

  /** The same bytes in the part that counts. */
  ghost predicate SameUpTo(b: seq<byte>, b': seq<byte>, h: nat, d: nat, e: nat) {
    && |b'| == |b| && (h < |b| || (h == 0 && |b| == 0)) && d <= e <= |b|
    && forall k :: d <= k < e ==> b'[At(|b|, h, k)] == b[At(|b|, h, k)]
  }

  lemma {:induction false} StoredStays(b: seq<byte>, b': seq<byte>, h: nat, d: nat, ms: seq<Message>)
    requires Stored(b, h, d, ms) && SameUpTo(b, b', h, d, d + Used(ms))
    ensures Stored(b', h, d, ms)
    decreases |ms|
  {
    if ms != [] {
      StoredStays(b, b', h, d + Space(|ms[0]|), ms[1..]);
    }
  }

  lemma {:induction false} StoredAppend(b: seq<byte>, h: nat, d: nat, ms: seq<Message>, m: Message)
    requires Stored(b, h, d, ms) && d + Used(ms) + Space(|m|) <= |b|
    requires Holds(b, h, d + Used(ms), Header(|m|)) && Holds(b, h, d + Used(ms) + HEADERSZ, m)
    ensures Stored(b, h, d, ms + [m])
    decreases |ms|
  {
    UsedAppend(ms, m);
    if ms == [] {
      assert ms + [m] == [m];
      assert Stored(b, h, d + Space(|m|), []);
      assert [m][1..] == [];
      assert Used([m]) == Space(|m|) + Used([]);
    } else {
      assert (ms + [m])[1..] == ms[1..] + [m] && (ms + [m])[0] == ms[0];
      StoredAppend(b, h, d + Space(|ms[0]|), ms[1..], m);
    }
  }

  /** The same from another starting point. */
  lemma {:induction false} StoredShift(b: seq<byte>, h: nat, c: nat, d: nat, ms: seq<Message>)
    requires Stored(b, h, c + d, ms)
    ensures Stored(b, At(|b|, h, c), d, ms)
    decreases |ms|
  {
    var h' := At(|b|, h, c);
    forall k | d <= k && c + k < |b| ensures At(|b|, h', k) == At(|b|, h, c + k) {
    }
    if ms != [] {
      assert Holds(b, h', d, Header(|ms[0]|));
      assert Holds(b, h', d + HEADERSZ, ms[0]);
      assert c + d + Space(|ms[0]|) == c + (d + Space(|ms[0]|));
      StoredShift(b, h, c, d + Space(|ms[0]|), ms[1..]);
    }
  }

  /** The same bytes everywhere but from distance `d` up to `e`. */
  ghost predicate SameBut(b: seq<byte>, b': seq<byte>, h: nat, d: nat, e: nat) {
    && |b'| == |b| && (h < |b| || (h == 0 && |b| == 0)) && d <= e <= |b|
    && forall k :: 0 <= k < |b| && !(d <= k < e) ==> b'[At(|b|, h, k)] == b[At(|b|, h, k)]
  }

  function Patched(b: seq<byte>, at: nat, x: seq<byte>): (r: seq<byte>)
    requires at + |x| <= |b|
    ensures |r| == |b|
  {
    b[..at] + x + b[at + |x|..]
  }

  lemma PatchedAt(b: seq<byte>, at: nat, x: seq<byte>)
    requires at + |x| <= |b|
    ensures forall k :: 0 <= k < |b| ==> Patched(b, at, x)[k] == if at <= k < at + |x| then x[k - at] else b[k]
  {
  }

  /** One `memcpy` that does not reach the end of the buffer. */
  lemma Copied(b: seq<byte>, b': seq<byte>, h: nat, d: nat, x: seq<byte>)
    requires (h < |b| || (h == 0 && |b| == 0)) && d + |x| <= |b|
    requires var at := At(|b|, h, d); at + |x| <= |b| && b' == Patched(b, at, x)
    ensures Holds(b', h, d, x) && SameBut(b, b', h, d, d + |x|)
  {
    hide Patched;
    var n, at := |b|, At(|b|, h, d);
    PatchedAt(b, at, x);
    forall k | 0 <= k < |x| ensures b'[At(n, h, d + k)] == x[k] {
      assert At(n, h, d + k) == at + k;
    }
    forall k | 0 <= k < n && !(d <= k < d + |x|) ensures b'[At(n, h, k)] == b[At(n, h, k)] {
      assert !(at <= At(n, h, k) < at + |x|);
    }
  }

  /** Two, one to the end and one from the beginning. */
  lemma CopiedRound(b: seq<byte>, b1: seq<byte>, b2: seq<byte>, h: nat, d: nat, x: seq<byte>, y: seq<byte>)
    requires Holds(b1, h, d, x) && SameBut(b, b1, h, d, d + |x|)
    requires Holds(b2, h, d + |x|, y) && SameBut(b1, b2, h, d + |x|, d + |x| + |y|)
    ensures Holds(b2, h, d, x + y) && SameBut(b, b2, h, d, d + |x| + |y|)
  {
    forall k | 0 <= k < |x + y| ensures b2[At(|b2|, h, d + k)] == (x + y)[k] {
      if k >= |x| {
        assert d + k == d + |x| + (k - |x|);
      }
    }
  }

  /** A message appended: the older ones are not touched. */
  lemma Appended(b: seq<byte>, b1: seq<byte>, b2: seq<byte>, h: nat, ms: seq<Message>, m: Message)
    requires Stored(b, h, 0, ms) && Used(ms) + Space(|m|) <= |b| && m != []
    requires var d := Used(ms);
             && Holds(b1, h, d, Header(|m|)) && SameBut(b, b1, h, d, d + HEADERSZ)
             && Holds(b2, h, d + HEADERSZ, m) && SameBut(b1, b2, h, d + HEADERSZ, d + HEADERSZ + |m|)
    ensures Stored(b2, h, 0, ms + [m]) && Used(ms + [m]) == Used(ms) + Space(|m|)
  {
    var d := Used(ms);
    UsedAppend(ms, m);
    assert SameUpTo(b, b2, h, 0, 0 + d);
    StoredStays(b, b2, h, 0, ms);
    assert Holds(b2, h, d, Header(|m|));
    StoredAppend(b2, h, 0, ms, m);
  }

  /** The rest of the messages seen from the new head. */
  lemma Leaves(n: nat, h: nat, sz: nat, rest: nat)
    requires Aligned(n) && Aligned(h) && h < n && Space(sz) + rest <= n
    ensures var h' := At(n, h, Space(sz)); Aligned(h') && At(n, h', rest) == At(n, h, Space(sz) + rest)
  {
    AlignedSum(h, Space(sz));
    AlignedSum(h + Space(sz), n);
  }

  /** The bytes of a message, in one or two pieces. */
  lemma ReadAt(b: seq<byte>, h: nat, d: nat, m: Message)
    requires Holds(b, h, d, m) && h < |b|
    ensures var at := At(|b|, h, d);
            m == if |b| - at < |m| then b[at..] + b[..|m| - (|b| - at)] else b[at..at + |m|]
  {
    var at := At(|b|, h, d);
    var r := if |b| - at < |m| then b[at..] + b[..|m| - (|b| - at)] else b[at..at + |m|];
    forall k | 0 <= k < |m| ensures r[k] == m[k] {
      assert b[At(|b|, h, d + k)] == m[k];
    }
  }

  /** The header of the first message is in one piece and tells its size. */
  lemma First(b: seq<byte>, h: nat, ms: seq<Message>)
    requires Stored(b, h, 0, ms) && ms != [] && Aligned(|b|) && Aligned(h)
    ensures h + 4 <= |b| && Unheader(b[h..h + 4]) == |ms[0]| && Space(|ms[0]|) <= |b|
    ensures Holds(b, h, HEADERSZ, ms[0]) && Used(ms) == Space(|ms[0]|) + Used(ms[1..])
    ensures Stored(b, At(|b|, h, Space(|ms[0]|)), 0, ms[1..])
  {
    hide Aligned, Round, Used, Header, Unheader, Holds, Stored;
    var sz := |ms[0]|;
    FirstHolds(b, h, ms);
    AfterHeader(|b|, h, 0);
    HeaderAt(b, h, sz);
    StoredShift(b, h, Space(sz), 0, ms[1..]);
  }

  lemma FirstHolds(b: seq<byte>, h: nat, ms: seq<Message>)
    requires Stored(b, h, 0, ms) && ms != []
    ensures |ms[0]| < 0x8000_0000 && 0 < HEADERSZ <= Space(|ms[0]|) <= |b| && h < |b|
    ensures Holds(b, h, 0, Header(|ms[0]|)) && Holds(b, h, HEADERSZ, ms[0])
    ensures Used(ms) == Space(|ms[0]|) + Used(ms[1..]) && Stored(b, h, Space(|ms[0]|) + 0, ms[1..])
  {
    hide Holds, Header;
  }

  lemma HeaderAt(b: seq<byte>, h: nat, sz: nat)
    requires sz < 0x8000_0000 && h + 4 <= |b| && Holds(b, h, 0, Header(sz))
    ensures Unheader(b[h..h + 4]) == sz
  {
    forall k | 0 <= k < 4 ensures b[h + k] == Header(sz)[k] {
      assert At(|b|, h, 0 + k) == h + k;
    }
    assert b[h..h + 4] == Header(sz);
    HeaderRoundTrip(sz);
  }

  /** The fields of a ring that holds the messages `ms`. */
  ghost predicate Layout(b: seq<byte>, frbufsz: nat, head: nat, tail: nat, ms: seq<Message>) {
    && Aligned(|b|) && Aligned(head)
    && (forall m :: m in ms ==> m != [])
    && Used(ms) <= |b| && frbufsz == |b| - Used(ms)
    && Stored(b, head, 0, ms) && (head < |b| || (head == 0 && |b| == 0)) && tail == At(|b|, head, Used(ms))
  }

  /** Before a message is stored. */
  lemma ToStore(b: seq<byte>, frbufsz: nat, head: nat, tail: nat, ms: seq<Message>, sz: nat)
    requires Layout(b, frbufsz, head, tail, ms) && HEADERSZ + sz <= frbufsz
    ensures var d := Used(ms);
            && Stored(b, head, 0, ms) && sz < 0x8000_0000 && Space(sz) <= frbufsz && head < |b|
            && tail == At(|b|, head, d) && tail + HEADERSZ <= |b|
            && Aligned(|b|) && Aligned(head) && Aligned(d + HEADERSZ) && d + HEADERSZ + Round(sz) <= |b|
            && At(|b|, head, d + HEADERSZ) == if tail + HEADERSZ >= |b| then 0 else tail + HEADERSZ
  {
    var d := Used(ms);
    assert |b| < 0x8000_0000;
    AlignedSum(|b|, d);
    UnroundedTestSuffices(sz, frbufsz);
    AfterHeader(|b|, head, d);
  }

  lemma StoredIt(b: seq<byte>, b2: seq<byte>, frbufsz: nat, head: nat, tail: nat, ms: seq<Message>, m: Message)
    requires Layout(b, frbufsz, head, tail, ms) && HEADERSZ + |m| <= frbufsz && m != [] && |b2| == |b|
    requires Stored(b2, head, 0, ms + [m]) && Used(ms + [m]) == Used(ms) + Space(|m|) && Space(|m|) <= frbufsz
    ensures Layout(b2, frbufsz - Space(|m|), head, At(|b|, head, Used(ms) + Space(|m|)), ms + [m])
  {
  }

  /** Before a message is taken. */
  lemma ToTake(b: seq<byte>, frbufsz: nat, head: nat, tail: nat, ms: seq<Message>)
    requires Layout(b, frbufsz, head, tail, ms) && ms != []
    ensures var sz := |ms[0]|;
            && head + HEADERSZ <= |b| && Unheader(b[head..head + 4]) == sz && head < |b|
            && Aligned(|b|) && Aligned(head) && Aligned(HEADERSZ) && Space(sz) <= |b| && Holds(b, head, HEADERSZ, ms[0])
            && At(|b|, head, HEADERSZ) == (if head + HEADERSZ >= |b| then 0 else head + HEADERSZ)
            && Layout(b, frbufsz + Space(sz), At(|b|, head, Space(sz)), tail, ms[1..])
  {
    First(b, head, ms);
    AfterHeader(|b|, head, 0);
    Leaves(|b|, head, |ms[0]|, Used(ms[1..]));
    assert forall m :: m in ms[1..] ==> m in ms;
  }

  class Ring {
    var buffer: array<byte>
    var bufsz: nat
    var frbufsz: nat
    var head: nat
    var tail: nat
    /** The messages in the buffer, the oldest first. */
    ghost var msgs: seq<Message>

    ghost predicate Valid()
      reads this, buffer
    {
      bufsz == buffer.Length && Layout(buffer[..], frbufsz, head, tail, msgs)
    }

    /** `_tk_cre_mbf`. */
    constructor (size: nat)
      requires Round(size) < 0x8000_0000
      ensures Valid() && msgs == [] && bufsz == Round(size) && fresh(buffer)
    {
      buffer := new byte[Round(size)];
      bufsz, frbufsz, head, tail, msgs := Round(size), Round(size), 0, 0, [];
    }

    /** `mbf_free`. */
    predicate Free(msgsz: nat)
      reads this
    {
      HEADERSZ + msgsz <= frbufsz
    }

    /** `mbf_empty`. */
    predicate Empty()
      reads this
    {
      frbufsz == bufsz
    }

    lemma EmptyMeans()
      requires Valid()
      ensures Empty() <==> msgs == []
    {
    }

    /** A message can be stored exactly if it fits in behind those that are. */
    lemma FreeMeans(msgsz: nat)
      requires Valid()
      ensures Free(msgsz) <==> Used(msgs) + Space(msgsz) <= bufsz
    {
      UnroundedTestSuffices(msgsz, frbufsz);
    }

    /** `memcpy(&buffer[at], msg, |msg|)`. */
    method Copy(at: nat, msg: seq<byte>)
      requires at + |msg| <= buffer.Length
      modifies buffer
      ensures buffer[..] == Patched(old(buffer[..]), at, msg)
    {
      var i := 0;
      while i < |msg|
        invariant i <= |msg|
        invariant forall k :: 0 <= k < i ==> buffer[at + k] == msg[k]
        invariant forall k :: 0 <= k < buffer.Length && !(at <= k < at + i) ==> buffer[k] == old(buffer[k])
      {
        buffer[at + i] := msg[i];
        i := i + 1;
      }
    }

    /** The two `memcpy` of `msg_to_mbf`, and the place after the rounded message. */
    method CopyRound(at: nat, msg: Message, ghost h: nat, ghost d: nat) returns (t: nat)
      requires bufsz == buffer.Length && Aligned(bufsz) && Aligned(h) && Aligned(d) && h < bufsz
      requires d + Round(|msg|) <= bufsz && at == At(bufsz, h, d)
      modifies buffer
      ensures Holds(buffer[..], h, d, msg) && SameBut(old(buffer[..]), buffer[..], h, d, d + |msg|)
      ensures t == At(bufsz, h, d + Round(|msg|))
    {
      hide Aligned, Round, Holds, SameBut, At, Patched;
      ghost var b := buffer[..];
      NextPlace(bufsz, h, d, |msg|);
      var rest := msg;
      t := at;
      var remsz := bufsz - t;
      if remsz < |rest| {
        Copy(t, rest[..remsz]);
        ghost var b1 := buffer[..];
        Copied(b, b1, h, d, rest[..remsz]);
        rest := rest[remsz..];
        t := 0;
        Copy(t, rest);
        Copied(b1, buffer[..], h, d + remsz, rest);
        CopiedRound(b, b1, buffer[..], h, d, msg[..remsz], rest);
        assert msg[..remsz] + rest == msg;
      } else {
        Copy(t, rest);
        Copied(b, buffer[..], h, d, rest);
      }
      t := t + Round(|rest|);
      if t >= bufsz {
        t := 0;
      }
    }

    /** `msg_to_mbf`. */
    method MsgToMbf(msg: Message)
      requires Valid() && msg != [] && Free(|msg|)
      modifies this, buffer
      ensures Valid() && buffer == old(buffer) && bufsz == old(bufsz)
      ensures msgs == old(msgs) + [msg] && frbufsz < old(frbufsz)
    {
      hide Aligned, Round, Used, At, Header, Unheader, Holds, Stored, SameUpTo, SameBut, Patched, Layout;
      ghost var b, d := buffer[..], Used(msgs);
      ToStore(b, frbufsz, head, tail, msgs, |msg|);
      frbufsz := frbufsz - Space(|msg|);
      var t := tail;
      Copy(t, Header(|msg|));
      ghost var b1 := buffer[..];
      Copied(b, b1, head, d, Header(|msg|));
      t := t + HEADERSZ;
      if t >= bufsz {
        t := 0;
      }
      t := CopyRound(t, msg, head, d + HEADERSZ);
      Appended(b, b1, buffer[..], head, msgs, msg);
      StoredIt(b, buffer[..], old(frbufsz), head, tail, msgs, msg);
      tail := t;
      msgs := msgs + [msg];
    }

    /** The two `memcpy` of `mbf_to_msg`, and the place after the rounded message. */
    method ReadRound(at: nat, size: nat, ghost h: nat, ghost d: nat, ghost m: Message) returns (msg: Message, t: nat)
      requires bufsz == buffer.Length && Aligned(bufsz) && Aligned(h) && Aligned(d) && h < bufsz
      requires d + Round(size) <= bufsz && at == At(bufsz, h, d) && size == |m| && Holds(buffer[..], h, d, m)
      ensures msg == m && t == At(bufsz, h, d + Round(size))
    {
      hide Aligned, Round, Holds, At;
      NextPlace(bufsz, h, d, size);
      ReadAt(buffer[..], h, d, m);
      var msgsz := size;
      t, msg := at, [];
      var remsz := bufsz - t;
      if remsz < msgsz {
        msg := buffer[..][t..bufsz];
        msgsz := msgsz - remsz;
        t := 0;
      }
      msg := msg + buffer[..][t..t + msgsz];
      t := t + Round(msgsz);
      if t >= bufsz {
        t := 0;
      }
    }

    /** `mbf_to_msg`. */
    method MbfToMsg() returns (msg: Message)
      requires Valid() && !Empty()
      modifies this
      ensures Valid() && buffer == old(buffer) && bufsz == old(bufsz)
      ensures old(msgs) == [msg] + msgs
    {
      hide Aligned, Round, Used, At, Header, Unheader, Holds, Stored, SameUpTo, SameBut, Patched, Layout;
      EmptyMeans();
      ghost var h := head;
      ToTake(buffer[..], frbufsz, head, tail, msgs);
      var p := head;
      var msgsz := Unheader(buffer[..][p..p + HEADERSZ]);
      frbufsz := frbufsz + Space(msgsz);
      p := p + HEADERSZ;
      if p >= bufsz {
        p := 0;
      }
      msg, p := ReadRound(p, msgsz, h, HEADERSZ, msgs[0]);
      head := p;
      msgs := msgs[1..];
    }
  }
}
