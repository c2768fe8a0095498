/** Copying a stream through validating middlewares (pkg/storage/io.go, pkg/storage/validation.go). */
module Stream {
  import opened Versions
  import opened Substrings

  /** "-----BEGIN PGP MESSAGE", the armor header line of section 6.2 of RFC 4880. */
  const HEADER: seq<Byte> := [45, 45, 45, 45, 45, 66, 69, 71, 73, 78, 32, 80, 71, 80, 32, 77, 69, 83, 83, 65, 71, 69]

  /** "-----END PGP MESSAGE", the armor tail. */
  const FOOTER: seq<Byte> := [45, 45, 45, 45, 45, 69, 78, 68, 32, 80, 71, 80, 32, 77, 69, 83, 83, 65, 71, 69]

  /** Byte for byte the characters of `text`. */
  predicate Spells(bytes: seq<Byte>, text: string) {
    |bytes| == |text| && forall k :: 0 <= k < |bytes| ==> bytes[k] as int == text[k] as int
  }

  /** The header and the footer are the armor lines they are meant to be. */
  lemma ArmorLines()
    ensures Spells(HEADER, "-----BEGIN PGP MESSAGE")
    ensures Spells(FOOTER, "-----END PGP MESSAGE")
  {
  }

  datatype Status = More | Eof | Failed
  datatype Write = Written | WriteFailed(accepted: nat)

  /**
   * One turn of the copy loop as its surroundings play it: whether the context is already done, the bytes and the
   * error the reader returns, whether the request is cancelled when the chunk is validated, and how the write goes.
   */
  datatype Turn = Turn(done: bool, data: seq<Byte>, status: Status, cancelled: bool, write: Write)

  /** The bytes the reader hands over before the stream ends, in order. */
  function Delivered(turns: seq<Turn>): seq<Byte> {
    if turns == [] || turns[0].done then []
    else match turns[0].status
      case More => turns[0].data + Delivered(turns[1..])
      case Eof => turns[0].data
      case Failed => []
  }

  datatype Middleware = RequestCancelled | QuotaMaxFileSize(max: int) | NonEmpty | GpgArmor

  /** `CreateStandardMiddleWares`. */
  function StandardChain(max: int): seq<Middleware> {
    [RequestCancelled, QuotaMaxFileSize(max), NonEmpty, GpgArmor]
  }

  /** The verdict of one `processor` callback. */
  predicate Passes(m: Middleware, chunk: seq<Byte>, total: int, previous: seq<Byte>, chunkNum: int, cancelled: bool) {
    match m
    case RequestCancelled => !cancelled
    case QuotaMaxFileSize(max) => total <= max
    case NonEmpty => true
    case GpgArmor =>
      && (chunkNum == 1 ==> Contains(chunk, HEADER))
      && (|previous| > 0 ==> Contains(previous + chunk, FOOTER))
  }

  /** `NestedStreamMiddlewares`, with the length each non-empty middleware has recorded. */
  class Chain {
    const middlewares: seq<Middleware>
    var recorded: seq<int>

    ghost predicate Valid()
      reads this
    {
      |recorded| == |middlewares|
    }

    constructor (middlewares: seq<Middleware>)
      ensures Valid() && this.middlewares == middlewares
      ensures recorded == seq(|middlewares|, _ => 0)
    {
      this.middlewares := middlewares;
      this.recorded := seq(|middlewares|, _ => 0);
    }

    /** `processChunk`: the first refusal stops the chain. */
    method ProcessChunk(chunk: seq<Byte>, total: int, previous: seq<Byte>, chunkNum: int, cancelled: bool)
        returns (ok: bool)
      requires Valid()
      modifies this
      ensures Valid()
      ensures ok <==> forall m :: m in middlewares ==> Passes(m, chunk, total, previous, chunkNum, cancelled)
      ensures ok ==> |recorded| == |old(recorded)| == |middlewares|
      ensures ok ==> forall i :: 0 <= i < |middlewares| ==>
                recorded[i] == if middlewares[i].NonEmpty? then total else old(recorded)[i]
    {
      for i := 0 to |middlewares|
        invariant Valid()
        invariant forall k :: 0 <= k < i ==> Passes(middlewares[k], chunk, total, previous, chunkNum, cancelled)
        invariant forall k :: 0 <= k < |middlewares| ==>
                                recorded[k] == if k < i && middlewares[k].NonEmpty? then total else old(recorded)[k]
      {
        if middlewares[i].NonEmpty? {
          recorded := recorded[i := total];
        } else if !Passes(middlewares[i], chunk, total, previous, chunkNum, cancelled) {
          return false;
        }
      }
      return true;
    }

    /** `checkFinalStatusAfterFilesWasUploaded`. */
    method CheckFinalStatus() returns (ok: bool)
      requires Valid()
      ensures ok <==> forall i :: 0 <= i < |middlewares| && middlewares[i].NonEmpty? ==> recorded[i] != 0
    {
      for i := 0 to |middlewares|
        invariant forall k :: 0 <= k < i && middlewares[k].NonEmpty? ==> recorded[k] != 0
      {
        if middlewares[i].NonEmpty? && recorded[i] == 0 {
          return false;
        }
      }
      return true;
    }
  }

  /** What is left of the previous chunk once the next read has reused its buffer. */
  function Overwritten(previous: seq<Byte>, next: seq<Byte>): (r: seq<Byte>)
    ensures |r| == |previous|
  {
    if |previous| <= |next| then next[..|previous|] else next + previous[|next|..]
  }

  datatype Outcome = Copied(total: nat) | Aborted(total: nat)

  predicate AllPass(ms: seq<Middleware>, chunk: seq<Byte>, total: int, previous: seq<Byte>, chunkNum: int,
      cancelled: bool) {
    forall m :: m in ms ==> Passes(m, chunk, total, previous, chunkNum, cancelled)
  }

  /** The first `k` bytes, or all of them. */
  function Upto(s: seq<Byte>, k: nat): seq<Byte> {
    if k < |s| then s[..k] else s
  }

  /**
   * The copy loop after `chunkNum` chunks, all written: `previous` is the content of the previous buffer before the
   * next read. From the second read on that buffer is the one being read into.
   */
  function CopyFrom(ms: seq<Middleware>, turns: seq<Turn>, chunkNum: nat, written: seq<Byte>, previous: seq<Byte>)
    : (Outcome, seq<Byte>)
    decreases |turns|
  {
    if turns == [] || turns[0].done || turns[0].status == Failed then (Aborted(|written|), written)
    else
      var t := turns[0];
      var total := |written| + |t.data|;
      var shown := if t.status == More then [] else if chunkNum == 0 then previous else Overwritten(previous, t.data);
      if !AllPass(ms, t.data, total, shown, chunkNum + 1, t.cancelled) then (Aborted(total), written)
      else if t.write.WriteFailed? then (Aborted(total), written + Upto(t.data, t.write.accepted))
      else if t.status == Eof then (Copied(total), written + t.data)
      else if NonEmpty in ms && total == 0 then (Aborted(total), written + t.data)
      else CopyFrom(ms, turns[1..], chunkNum + 1, written + t.data, t.data)
  }

  function Copy(ms: seq<Middleware>, turns: seq<Turn>, bufferLen: nat): (Outcome, seq<Byte>) {
    CopyFrom(ms, turns, 0, [], seq(bufferLen, _ => 0))
  }

  /** `io.Reader.Read`: the bytes go to the front of the buffer and the rest of it stays. */
  method ReadInto(buff: array<Byte>, data: seq<Byte>)
    requires |data| <= buff.Length
    modifies buff
    ensures buff[..|data|] == data
    ensures forall k: nat :: k <= buff.Length ==> buff[..k] == Overwritten(old(buff[..k]), data)
  {
    forall k | 0 <= k < |data| {
      buff[k] := data[k];
    }
  }

  /**
   * `CopyStream`. The previous chunk is a slice of the very buffer the next read fills.
   * When the turns run out the context's deadline has come.
   */
  method CopyStream(turns: seq<Turn>, chain: Chain, bufferLen: nat) returns (outcome: Outcome, written: seq<Byte>)
    requires chain.Valid()
    requires forall t :: t in turns ==> |t.data| <= bufferLen
    modifies chain
    ensures chain.Valid()
    ensures (outcome, written) == Copy(chain.middlewares, turns, bufferLen)
  {
    var buff := new Byte[bufferLen](_ => 0);
    var previousBuff := new Byte[bufferLen](_ => 0);
    var previousLen: nat := bufferLen;
    var total := 0;
    var chunkNum := 0;
    written := [];
    assert previousBuff[..previousLen] == seq(bufferLen, _ => 0);
    assert turns[chunkNum..] == turns;

    while chunkNum < |turns|
      invariant 0 <= chunkNum <= |turns| && chain.Valid()
      invariant previousLen <= bufferLen == previousBuff.Length && total == |written|
      invariant previousBuff == buff <==> chunkNum > 0
      invariant Copy(chain.middlewares, turns, bufferLen)
             == CopyFrom(chain.middlewares, turns[chunkNum..], chunkNum, written, previousBuff[..previousLen])
    {
      var turn := turns[chunkNum];
      assert turns[chunkNum..][0] == turn && turns[chunkNum..][1..] == turns[chunkNum + 1..];
      if turn.done {
        return Aborted(total), written;
      }
      assert previousBuff == buff ==> buff[..previousLen] == previousBuff[..previousLen];
      ReadInto(buff, turn.data);
      var n := |turn.data|;
      chunkNum := chunkNum + 1;

      if turn.status == Failed {
        return Aborted(total), written;
      }
      total := total + n;
      if turn.status == Eof {
        var ok := chain.ProcessChunk(buff[..n], total, previousBuff[..previousLen], chunkNum, turn.cancelled);
        if !ok {
          return Aborted(total), written;
        }
        match turn.write {
          case WriteFailed(k) =>
            written := written + Upto(buff[..n], k);
            return Aborted(total), written;
          case Written =>
            written := written + buff[..n];
            return Copied(total), written;
        }
      }

      previousBuff := buff;
      previousLen := n;
      var ok := chain.ProcessChunk(buff[..n], total, [], chunkNum, turn.cancelled);
      if !ok {
        return Aborted(total), written;
      }
      match turn.write {
        case WriteFailed(k) =>
          written := written + Upto(buff[..n], k);
          return Aborted(total), written;
        case Written =>
          written := written + buff[..n];
      }
      ok := chain.CheckFinalStatus();
      if !ok {
        return Aborted(total), written;
      }
    }
    return Aborted(total), written;
  }

  // ---------------------------------------------------------------- what a copy guarantees, for any middlewares

  lemma {:induction false} CopyFromIsFaithful(ms: seq<Middleware>, turns: seq<Turn>, chunkNum: nat, written: seq<Byte>,
      previous: seq<Byte>)
    ensures var (outcome, out) := CopyFrom(ms, turns, chunkNum, written, previous);
            && out <= written + Delivered(turns)
            && (outcome.Copied? ==> out == written + Delivered(turns) && outcome.total == |out|)
    decreases |turns|
  {
    if turns != [] && !turns[0].done && turns[0].status != Failed {
      var t := turns[0];
      if t.status == More {
        assert written + Delivered(turns) == (written + t.data) + Delivered(turns[1..]);
        CopyFromIsFaithful(ms, turns[1..], chunkNum + 1, written + t.data, t.data);
      }
    }
  }

  /** However the reader splits its input: success stores exactly the input, and anything else stores a prefix of it. */
  lemma CopyIsFaithful(ms: seq<Middleware>, turns: seq<Turn>, bufferLen: nat)
    ensures var (outcome, out) := Copy(ms, turns, bufferLen);
            && out <= Delivered(turns)
            && (outcome.Copied? ==> out == Delivered(turns) && outcome.total == |out|)
  {
    CopyFromIsFaithful(ms, turns, 0, [], seq(bufferLen, _ => 0));
  }

  lemma {:induction false} CopyFromWithinQuota(ms: seq<Middleware>, turns: seq<Turn>, chunkNum: nat, written: seq<Byte>,
      previous: seq<Byte>, max: nat, bufferLen: nat)
    requires QuotaMaxFileSize(max) in ms && |written| <= max
    requires forall t :: t in turns ==> |t.data| <= bufferLen
    ensures var (outcome, out) := CopyFrom(ms, turns, chunkNum, written, previous);
            |out| <= max && outcome.total <= max + bufferLen
    decreases |turns|
  {
    if turns != [] && !turns[0].done && turns[0].status != Failed {
      var t := turns[0];
      var total := |written| + |t.data|;
      assert Passes(QuotaMaxFileSize(max), t.data, total, [], chunkNum + 1, t.cancelled) <==> total <= max;
      if total <= max {
        CopyFromWithinQuota(ms, turns[1..], chunkNum + 1, written + t.data, t.data, max, bufferLen);
      }
    }
  }

  /**
   * Under a quota nothing beyond the limit is ever stored, and the running total, which is largest when the copy
   * returns, never exceeds the limit by more than one buffer.
   */
  lemma CopyWithinQuota(ms: seq<Middleware>, turns: seq<Turn>, max: nat, bufferLen: nat)
    requires QuotaMaxFileSize(max) in ms
    requires forall t :: t in turns ==> |t.data| <= bufferLen
    ensures var (outcome, out) := Copy(ms, turns, bufferLen);
            |out| <= max && outcome.total <= max + bufferLen
  {
    CopyFromWithinQuota(ms, turns, 0, [], seq(bufferLen, _ => 0), max, bufferLen);
  }

  /** A successful copy under the standard chain is within its quota, whatever the buffer. */
  lemma CopiedWithinQuota(ms: seq<Middleware>, turns: seq<Turn>, max: nat, bufferLen: nat)
    requires QuotaMaxFileSize(max) in ms
    ensures |Copy(ms, turns, bufferLen).1| <= max
  {
    var longest := LongestRead(turns);
    CopyFromWithinQuota(ms, turns, 0, [], seq(bufferLen, _ => 0), max, longest);
  }

  function LongestRead(turns: seq<Turn>): (n: nat)
    ensures forall t :: t in turns ==> |t.data| <= n
  {
    if turns == [] then 0
    else
      var n := LongestRead(turns[1..]);
      if n < |turns[0].data| then |turns[0].data| else n
  }

  // ---------------------------------------------------------------- which uploads the standard chain accepts

  predicate Calm(t: Turn) {
    !t.done && !t.cancelled && t.write.Written?
  }

  /** The stream ends at turn `e`, and nothing disturbs the copy until then. */
  ghost predicate CalmUntil(turns: seq<Turn>, e: nat) {
    && e < |turns| && Calm(turns[e]) && turns[e].status == Eof
    && forall k :: 0 <= k < e ==> Calm(turns[k]) && turns[k].status == More
  }

  /** The previous hunk that the validators are shown at the end of the stream. */
  function PreviousAtEof(turns: seq<Turn>, e: nat, chunkNum: nat, previous: seq<Byte>): seq<Byte>
    requires e < |turns|
  {
    if e > 0 then Overwritten(turns[e - 1].data, turns[e].data)
    else if chunkNum == 0 then previous
    else Overwritten(previous, turns[0].data)
  }

  ghost predicate AcceptsRest(turns: seq<Turn>, e: nat, chunkNum: nat, size: nat, previous: seq<Byte>, max: int)
    requires e < |turns|
  {
    && (chunkNum == 0 ==> Contains(turns[0].data, HEADER))
    && size + |Delivered(turns)| <= max
    && var shown := PreviousAtEof(turns, e, chunkNum, previous);
       (shown != [] ==> Contains(shown + turns[e].data, FOOTER))
  }

  /**
   * The uploads that pass: undisturbed, armored at both ends as far as the validators can see, and within the quota.
   */
  ghost predicate Accepts(turns: seq<Turn>, max: int, bufferLen: nat) {
    exists e: nat :: CalmUntil(turns, e) && AcceptsRest(turns, e, 0, 0, seq(bufferLen, _ => 0), max)
  }

  lemma StandardVerdict(max: int, chunk: seq<Byte>, total: int, previous: seq<Byte>, chunkNum: int, cancelled: bool)
    ensures AllPass(StandardChain(max), chunk, total, previous, chunkNum, cancelled)
       <==> !cancelled && total <= max && Passes(GpgArmor, chunk, total, previous, chunkNum, cancelled)
  {
    var ms := StandardChain(max);
    assert ms[0] in ms && ms[1] in ms && ms[3] in ms;
  }

  lemma {:induction false} CalmCopyFrom(max: int, turns: seq<Turn>, e: nat, chunkNum: nat, written: seq<Byte>,
      previous: seq<Byte>)
    requires CalmUntil(turns, e)
    requires chunkNum > 0 ==> written != []
    ensures CopyFrom(StandardChain(max), turns, chunkNum, written, previous).0.Copied?
       <==> AcceptsRest(turns, e, chunkNum, |written|, previous, max)
    decreases |turns|
  {
    var t := turns[0];
    var total := |written| + |t.data|;
    StandardVerdict(max, t.data, total, if e > 0 then []
      else PreviousAtEof(turns, 0, chunkNum, previous), chunkNum + 1, false);
    if e > 0 {
      assert chunkNum == 0 && Contains(t.data, HEADER) ==> |t.data| >= |HEADER|;
      if total <= max && (chunkNum == 0 ==> Contains(t.data, HEADER)) {
        CalmCopyFrom(max, turns[1..], e - 1, chunkNum + 1, written + t.data, t.data);
      }
    }
  }

  lemma {:induction false} CopiedIsCalm(max: int, turns: seq<Turn>, chunkNum: nat, written: seq<Byte>,
      previous: seq<Byte>) returns (e: nat)
    requires CopyFrom(StandardChain(max), turns, chunkNum, written, previous).0.Copied?
    ensures CalmUntil(turns, e)
    decreases |turns|
  {
    var t := turns[0];
    var shown := if t.status == More then [] else PreviousAtEof(turns, 0, chunkNum, previous);
    StandardVerdict(max, t.data, |written| + |t.data|, shown, chunkNum + 1, t.cancelled);
    if t.status == Eof {
      return 0;
    }
    e := CopiedIsCalm(max, turns[1..], chunkNum + 1, written + t.data, t.data);
    e := e + 1;
    assert forall k :: 0 < k < e ==> turns[k] == turns[1..][k - 1];
  }

  /** For every reader, writer and cancellation: the standard chain copies a stream if and only if `Accepts` says so. */
  lemma StandardChainExact(max: int, turns: seq<Turn>, bufferLen: nat)
    ensures Copy(StandardChain(max), turns, bufferLen).0.Copied? <==> Accepts(turns, max, bufferLen)
  {
    var zeros := seq(bufferLen, _ => 0);
    forall e: nat | CalmUntil(turns, e)
      ensures Copy(StandardChain(max), turns, bufferLen).0.Copied? <==> AcceptsRest(turns, e, 0, 0, zeros, max)
    {
      CalmCopyFrom(max, turns, e, 0, [], zeros);
    }
    if Copy(StandardChain(max), turns, bufferLen).0.Copied? {
      var e := CopiedIsCalm(max, turns, 0, [], zeros);
    }
  }

  /** A well-behaved reader: non-empty chunks, then an end of stream that carries no bytes. */
  function ChunksThenEof(chunks: seq<seq<Byte>>): seq<Turn> {
    seq(|chunks|, i requires 0 <= i < |chunks| => Turn(false, chunks[i], More, false, Written))
    + [Turn(false, [], Eof, false, Written)]
  }

  /**
   * For such readers the check means what it says: header in the first chunk, footer in the last, size within the
   * quota.
   */
  lemma ArmoredUploadsExact(max: int, chunks: seq<seq<Byte>>, bufferLen: nat)
    requires forall c :: c in chunks ==> c != []
    ensures Copy(StandardChain(max), ChunksThenEof(chunks), bufferLen).0.Copied?
       <==> && chunks != []
            && Contains(chunks[0], HEADER)
            && Contains(chunks[|chunks| - 1], FOOTER)
            && |Delivered(ChunksThenEof(chunks))| <= max
  {
    var turns, e := ChunksThenEof(chunks), |chunks|;
    assert CalmUntil(turns, e);
    CalmCopyFrom(max, turns, e, 0, [], seq(bufferLen, _ => 0));
    if chunks != [] {
      var last := chunks[|chunks| - 1];
      assert last in chunks && turns[e - 1].data == last;
      assert Overwritten(last, []) == last && last + [] == last;
    }
  }

  function Joined(chunks: seq<seq<Byte>>): seq<Byte> {
    if chunks == [] then [] else Joined(chunks[..|chunks| - 1]) + chunks[|chunks| - 1]
  }

  lemma {:induction false} JoinedFront(chunk: seq<Byte>, chunks: seq<seq<Byte>>)
    ensures Joined([chunk] + chunks) == chunk + Joined(chunks)
    decreases |chunks|
  {
    if chunks == [] {
      assert [chunk] + chunks == [chunk] && [chunk][..0] == [];
      assert Joined([chunk]) == [] + chunk;
    } else {
      var init, last := chunks[..|chunks| - 1], chunks[|chunks| - 1];
      assert ([chunk] + chunks)[..|chunks|] == [chunk] + init;
      JoinedFront(chunk, init);
      assert (chunk + Joined(init)) + last == chunk + (Joined(init) + last);
    }
  }

  /** What a reader delivers is what its reads carry up to the end of the stream, joined in order. */
  lemma {:induction false} DeliveredIsJoined(turns: seq<Turn>, e: nat)
    requires CalmUntil(turns, e)
    ensures Delivered(turns) == Joined(seq(e + 1, k requires 0 <= k <= e => turns[k].data))
    decreases e
  {
    var chunks := seq(e + 1, k requires 0 <= k <= e => turns[k].data);
    if e == 0 {
      assert chunks == [turns[0].data] && chunks[..0] == [];
      assert Joined(chunks) == [] + turns[0].data;
    } else {
      var rest := turns[1..];
      DeliveredIsJoined(rest, e - 1);
      var later := seq(e, k requires 0 <= k <= e - 1 => rest[k].data);
      assert chunks == [turns[0].data] + later;
      JoinedFront(turns[0].data, later);
    }
  }

  // ---------------------------------------------------------------- where the validators fall short

  /**
   * The footer verdict at the end of a stream of at least two reads, as the shared buffer lets the validator see it.
   */
  predicate FooterSeen(previous: seq<Byte>, last: seq<Byte>) {
    |previous| > 0 ==> Contains(Overwritten(previous, last) + last, FOOTER)
  }

  /**
   * After the first read this verdict is all that separates an undisturbed, armored, affordable stream from acceptance.
   */
  lemma CopiedIffFooterSeen(max: int, turns: seq<Turn>, e: nat, bufferLen: nat)
    requires CalmUntil(turns, e) && e > 0 && Contains(turns[0].data, HEADER) && |Delivered(turns)| <= max
    ensures Copy(StandardChain(max), turns, bufferLen).0.Copied? <==> FooterSeen(turns[e - 1].data, turns[e].data)
  {
    CalmCopyFrom(max, turns, e, 0, [], seq(bufferLen, _ => 0));
  }

  /** For all contents of these lengths the verdict is the promised one, about the last two hunks joined. */
  ghost predicate FooterTrusted(p: nat, n: nat) {
    forall previous: seq<Byte>, last: seq<Byte> :: |previous| == p && |last| == n ==>
      (FooterSeen(previous, last) <==> Contains(previous + last, FOOTER))
  }

  /** What matters about the footer: five dashes (45) at its front and no more, and one 'D' (68). */
  ghost predicate FooterLike(f: seq<Byte>) {
    && |f| > 7 && f[7] == 68
    && (forall k :: 0 <= k < |f| ==> (f[k] == 45 <==> k < 5))
    && (forall k :: 0 <= k < |f| && f[k] == 68 ==> k == 7)
  }

  lemma FooterIsFooterLike()
    ensures FooterLike(FOOTER)
  {
  }

  /** The 'D' pins down where a footer can start. */
  lemma FooterNotAtStart(s: seq<Byte>, f: seq<Byte>, m: nat)
    requires FooterLike(f) && m < |f| && m < |s| && s[m] != f[m]
    requires forall k :: 0 <= k < |s| && s[k] == 68 ==> k <= 7
    ensures !Contains(s, f)
  {
    forall i | 0 <= i <= |s|
      ensures !OccursAt(s, f, i)
    {
      OccursElement(s, f, i, 7);
      OccursElement(s, f, i, m);
    }
  }

  function Zeros(n: nat): (s: seq<Byte>)
    ensures |s| == n && forall k :: 0 <= k < n ==> s[k] == 0
  {
    seq(n, _ => 0)
  }

  /** What the shared buffer shows of the two hunks that `joined` splits into at `p`. */
  function Seen(joined: seq<Byte>, p: nat): (seen: seq<Byte>)
    requires p <= |joined|
    ensures |seen| == |joined|
    ensures forall k :: 0 <= k < |joined| ==> seen[k] == joined[if k < p && p + k < |joined| then p + k else k]
  {
    Overwritten(joined[..p], joined[p..]) + joined[p..]
  }

  /** A footer at the front of the joined hunks is lost where the last read overwrites it with something else. */
  lemma FooterHidden(f: seq<Byte>, zeros: nat, p: nat)
    requires FooterLike(f) && 3 <= p < |f| + zeros
    ensures Contains(f + Zeros(zeros), f) && !Contains(Seen(f + Zeros(zeros), p), f)
  {
    var joined := f + Zeros(zeros);
    assert forall k :: 0 <= k < |joined| ==> joined[k] == if k < |f| then f[k] else 0;
    StartsWith(joined, f);
    var m := if p < 5 then 5 - p else 0;
    assert Seen(joined, p)[m] == joined[p + m];
    FooterNotAtStart(Seen(joined, p), f, m);
  }

  /** A one- or two-byte hunk before the last is itself overwritten with what completes the footer. */
  lemma FooterForged(f: seq<Byte>, joined: seq<Byte>, p: nat)
    requires FooterLike(f) && 1 <= p <= 2 && |f| <= |joined|
    requires forall k :: 0 <= k < |joined| ==> joined[k] == if k < p || k >= |f| then 0 else f[k]
    ensures !Contains(joined, f) && Contains(Seen(joined, p), f)
  {
    FooterNotAtStart(joined, f, 0);
    StartsWith(Seen(joined, p), f);
  }

  /** Two hunks about which the verdict is wrong. */
  lemma FooterMistaken(p: nat, n: nat) returns (joined: seq<Byte>)
    requires 0 < p && 0 < n && p + n >= |FOOTER|
    ensures |joined| == p + n && !(Contains(Seen(joined, p), FOOTER) <==> Contains(joined, FOOTER))
  {
    FooterIsFooterLike();
    var zeros := p + n - |FOOTER|;
    if p < 3 {
      joined := seq(p + n, k requires 0 <= k < p + n => if k < p || k >= |FOOTER| then 0 else FOOTER[k]);
      FooterForged(FOOTER, joined, p);
    } else {
      joined := FOOTER + Zeros(zeros);
      FooterHidden(FOOTER, zeros, p);
    }
  }

  /**
   * Exactly when the footer check can be trusted: there is a previous hunk, and either the read that reports the end of
   * the stream carries no bytes or both hunks together are too short for a footer anyway.
   */
  lemma FooterTrustedIff(p: nat, n: nat)
    ensures FooterTrusted(p, n) <==> p > 0 && (n == 0 || p + n < |FOOTER|)
  {
    if p == 0 {
      FooterNeedsD(Zeros(n));
      assert FooterSeen([], Zeros(n)) && [] + Zeros(n) == Zeros(n);
    } else if n == 0 || p + n < |FOOTER| {
      forall previous: seq<Byte>, last: seq<Byte> | |previous| == p && |last| == n
        ensures FooterSeen(previous, last) <==> Contains(previous + last, FOOTER)
      {
        if n == 0 { assert Overwritten(previous, last) == previous; }
      }
    } else {
      var joined := FooterMistaken(p, n);
      var previous, last := joined[..p], joined[p..];
      assert previous + last == joined && |previous| == p && |last| == n;
      assert !(FooterSeen(previous, last) <==> Contains(previous + last, FOOTER));
    }
  }

  /** No byte 68, no footer. */
  lemma FooterNeedsD(s: seq<Byte>)
    requires 68 !in s
    ensures !Contains(s, FOOTER)
  {
    forall i | 0 <= i <= |s|
      ensures !OccursAt(s, FOOTER, i)
    {
      OccursElement(s, FOOTER, i, 7);
    }
  }

  /** Read by read: `bytes` and then more to come. */
  function Reads(bytes: seq<Byte>): Turn {
    Turn(false, bytes, More, false, Written)
  }

  /** The read that reports the end of the stream. */
  function Ends(bytes: seq<Byte>): Turn {
    Turn(false, bytes, Eof, false, Written)
  }

  lemma ThreeReads(max: int, a: seq<Byte>, b: seq<Byte>, c: seq<Byte>, bufferLen: nat)
    requires Contains(a, HEADER) && |a| + |b| + |c| <= max && FooterSeen(b, c)
    ensures var turns := [Reads(a), Reads(b), Ends(c)];
            Copy(StandardChain(max), turns, bufferLen).0.Copied? && Delivered(turns) == a + b + c
  {
    var turns := [Reads(a), Reads(b), Ends(c)];
    assert turns[1..] == [Reads(b), Ends(c)] && turns[1..][1..] == [Ends(c)];
    assert Delivered([Ends(c)]) == c && Delivered([Reads(b), Ends(c)]) == b + c;
    assert a + b + c == a + (b + c);
    assert CalmUntil(turns, 2);
    CopiedIffFooterSeen(max, turns, 2, bufferLen);
  }

  /** The stream is accepted, and there is no footer anywhere in it. */
  ghost predicate PassesWithoutFooter(max: int, turns: seq<Turn>, bufferLen: nat) {
    && (forall t :: t in turns ==> |t.data| <= bufferLen)
    && Copy(StandardChain(max), turns, bufferLen).0.Copied?
    && !Contains(Delivered(turns), FOOTER)
  }

  /** A stream whose last byte, overwriting the first of the hunk before, completes a footer that nobody sent. */
  lemma SharedBufferForgesFooter(max: int, bufferLen: nat)
    requires max >= |HEADER| + |FOOTER| + 1 && bufferLen >= |HEADER|
    ensures PassesWithoutFooter(max, [Reads(HEADER), Reads([0] + FOOTER[1..]), Ends([45])], bufferLen)
  {
    FooterIsFooterLike();
    HeaderWithoutD();
    StartsWith(HEADER, HEADER);
    ForgedTail(HEADER, FOOTER);
    ThreeReads(max, HEADER, [0] + FOOTER[1..], [45], bufferLen);
  }

  lemma HeaderWithoutD()
    ensures 68 !in HEADER
  {
  }

  lemma ForgedTail(h: seq<Byte>, f: seq<Byte>)
    requires FooterLike(f) && 68 !in h
    ensures !Contains(h + ([0] + f[1..]) + [45], f) && Contains(Overwritten([0] + f[1..], [45]) + [45], f)
  {
    var s := h + ([0] + f[1..]) + [45];
    assert forall k :: 0 <= k < |s| ==>
      s[k] == if k < |h| then h[k] else if k == |h| then 0 else if k < |h| + |f| then f[k - |h|] else 45;
    assert forall k :: 0 <= k < |h| ==> h[k] in h;
    FooterAbsent(s, f, |h|);
    StartsWith(Overwritten([0] + f[1..], [45]) + [45], f);
  }

  lemma FooterAbsent(s: seq<Byte>, f: seq<Byte>, start: nat)
    requires FooterLike(f) && start < |s| && s[start] != 45
    requires forall k :: 0 <= k < |s| && s[k] == 68 ==> k == start + 7
    ensures !Contains(s, f)
  {
    forall i | 0 <= i <= |s|
      ensures !OccursAt(s, f, i)
    {
      OccursElement(s, f, i, 7);
      OccursElement(s, f, i, 0);
    }
  }

  /** A read of no bytes before the end empties the previous hunk, and the footer check is skipped altogether. */
  lemma EmptyReadSkipsFooter(max: int, bufferLen: nat)
    requires max >= |HEADER| && bufferLen >= |HEADER|
    ensures PassesWithoutFooter(max, [Reads(HEADER), Reads([]), Ends([])], bufferLen)
  {
    StartsWith(HEADER, HEADER);
    HeaderWithoutD();
    FooterNeedsD(HEADER);
    assert HEADER + [] + [] == HEADER;
    ThreeReads(max, HEADER, [], [], bufferLen);
  }

  /** Some upload is accepted under the limit `max`. */
  ghost predicate Admits(max: int, bufferLen: nat) {
    exists turns: seq<Turn> :: Accepts(turns, max, bufferLen) && forall t :: t in turns ==> |t.data| <= bufferLen
  }

  /** The smallest upload is an armor header, so a limit admits something if and only if it is at least that long. */
  lemma AdmitsIff(max: int, bufferLen: nat)
    requires bufferLen >= |HEADER|
    ensures Admits(max, bufferLen) <==> max >= |HEADER|
    ensures max < |HEADER| ==> forall turns: seq<Turn> :: !Accepts(turns, max, bufferLen)
  {
    if max >= |HEADER| {
      var turns := [Reads(HEADER), Reads([]), Ends([])];
      EmptyReadSkipsFooter(max, bufferLen);
      StandardChainExact(max, turns, bufferLen);
    } else {
      forall turns
        ensures !Accepts(turns, max, bufferLen)
      {
        if Accepts(turns, max, bufferLen) { AcceptedHasHeader(turns, max, bufferLen); }
      }
    }
  }

  lemma AcceptedHasHeader(turns: seq<Turn>, max: int, bufferLen: nat)
    requires Accepts(turns, max, bufferLen)
    ensures |HEADER| <= |Delivered(turns)| <= max
  {
    var e: nat :| CalmUntil(turns, e) && AcceptsRest(turns, e, 0, 0, seq(bufferLen, _ => 0), max);
    assert |turns[0].data| >= |HEADER|;
    assert turns[0].data <= Delivered(turns);
  }

  /**
   * The empty-data validator reports between chunks only. In any chain that has it, a stream without a byte is copied
   * if and only if its very first read reports the end and the other validators let that read through.
   */
  lemma EmptyStreamPassesIff(ms: seq<Middleware>, turns: seq<Turn>, bufferLen: nat)
    requires NonEmpty in ms && Delivered(turns) == []
    ensures Copy(ms, turns, bufferLen).0.Copied?
       <==> && turns != [] && turns[0].status == Eof && !turns[0].done && turns[0].write.Written?
            && AllPass(ms, [], 0, seq(bufferLen, _ => 0), 1, turns[0].cancelled)
  {
  }

  /** With the validator alone every empty stream that ends at once gets through. */
  lemma EmptyStreamAccepted(turns: seq<Turn>, e: nat, bufferLen: nat)
    requires CalmUntil(turns, e) && Delivered(turns) == []
    ensures Copy([NonEmpty], turns, bufferLen).0.Copied? <==> e == 0
  {
    EmptyStreamPassesIff([NonEmpty], turns, bufferLen);
  }
}
