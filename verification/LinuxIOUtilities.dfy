/**
 Partial reads and writes (UtilitiesInfra/LinuxUtils/LinuxIOUtilities.cpp and .hpp).
 The kernel is a finite script of answers to the successive system calls; a script that has run out answers EAGAIN.
 */
module LinuxIOUtilities {

  const READ_BUFFER_SIZE: nat := 4096
  const END_LINE: char := '\n'

  /** One answer of ::read or ::recv: EINTR, another error, or some bytes (none: end of file). */
  datatype ReadResult = Interrupted | Failed | Data(bytes: string)

  /** One answer of ::write: EINTR, another error, or the kernel taking up to that many bytes. */
  datatype WriteResult = WriteInterrupted | WriteFailed | Took(count: nat)

  /** Every answer fits the buffer it was asked to fill. */
  predicate Fits(script: seq<ReadResult>, size: nat) {
    forall i :: 0 <= i < |script| && script[i].Data? ==> |script[i].bytes| <= size
  }

  /** All the bytes the answers carry, in order. */
  function Bytes(script: seq<ReadResult>): string {
    if script == [] then "" else (if script[0].Data? then script[0].bytes else "") + Bytes(script[1..])
  }

  lemma {:induction false} BytesAppend(a: seq<ReadResult>, b: seq<ReadResult>)
    ensures Bytes(a + b) == Bytes(a) + Bytes(b)
  {
    if a == [] {
      assert a + b == b;
    } else {
      assert (a + b)[1..] == a[1..] + b;
      BytesAppend(a[1..], b);
    }
  }

  lemma BytesNext(script: seq<ReadResult>, used: nat)
    requires used < |script|
    ensures Bytes(script[..used + 1]) == Bytes(script[..used]) + (if script[used].Data? then script[used].bytes else "")
  {
    assert script[..used + 1] == script[..used] + [script[used]];
    BytesAppend(script[..used], [script[used]]);
    assert Bytes([script[used]]) == (if script[used].Data? then script[used].bytes else "") + Bytes([]);
  }

  lemma BytesOfOne(r: ReadResult)
    ensures Bytes([r]) == if r.Data? then r.bytes else ""
  {
    assert Bytes([r]) == (if r.Data? then r.bytes else "") + Bytes([]);
  }

  // ---------- read ----------

  /** The answers after which read asks again: EINTR, and a buffer filled to the brim. */
  predicate AsksAgain(r: ReadResult) {
    r.Interrupted? || (r.Data? && |r.bytes| == READ_BUFFER_SIZE)
  }

  /** How many answers one call of read takes. */
  function Asked(script: seq<ReadResult>): (used: nat)
    ensures used <= |script|
  {
    if script == [] then 0 else if AsksAgain(script[0]) then 1 + Asked(script[1..]) else 1
  }

  /** Whether the call of read meets an error. */
  predicate ReadFails(script: seq<ReadResult>) {
    script == [] || (if AsksAgain(script[0]) then ReadFails(script[1..]) else script[0].Failed?)
  }

  /** Everything the answers of one call of read carry. */
  function Got(script: seq<ReadResult>): string {
    Bytes(script[..Asked(script)])
  }

  /** What the call answers its caller. */
  function ReadAnswer(script: seq<ReadResult>): int {
    if ReadFails(script) then -1 else |Got(script)|
  }

  /**
   read, for a descriptor that does not tell its size: whatever the answers carried is appended, in order and without
   loss - also when the call then answers -1.
   */
  method Read(script: seq<ReadResult>, result: string) returns (total: int, out: string, used: nat)
    ensures used == Asked(script)
    ensures out == result + Got(script) && total == ReadAnswer(script)
  {
    total, out, used := 0, result, 0;
    assert script[0..] == script;
    while used < |script|
      invariant used <= |script| && Asked(script) == used + Asked(script[used..])
      invariant ReadFails(script) == ReadFails(script[used..])
      invariant out == result + Bytes(script[..used]) && total == |Bytes(script[..used])|
    {
      BytesNext(script, used);
      assert script[used..][1..] == script[used + 1..];
      var answer := script[used];
      used := used + 1;
      match answer {
        case Interrupted =>
        case Failed =>
          total := -1;
          return;
        case Data(bytes) =>
          out := out + bytes;
          total := total + |bytes|;
          if |bytes| != READ_BUFFER_SIZE {
            return;
          }
      }
    }
    total := -1;
  }

  /**
   Where a call of read ends: with the first answer behind interruptions and full buffers, or with the last answer that
   there is. It fails when that is an error, or when the answers run out.
   */
  lemma {:induction false} ReadEndsWhere(script: seq<ReadResult>, k: nat)
    requires k <= |script|
    requires forall i :: 0 <= i < k ==> script[i] == Interrupted || (script[i].Data? && |script[i].bytes| == 4096)
    requires k < |script| ==> script[k] == Failed || (script[k].Data? && |script[k].bytes| != 4096)
    ensures Asked(script) == if k < |script| then k + 1 else k
    ensures ReadFails(script) <==> k == |script| || script[k] == Failed
    decreases k
  {
    if k > 0 {
      ReadEndsWhere(script[1..], k - 1);
    }
  }

  /** What a read leaves unread, the next one goes on with: two reads in a row carry the bytes of all their answers. */
  lemma ReadsInARow(script: seq<ReadResult>, used: nat, more: nat)
    requires used <= |script| && more <= |script| - used
    ensures Bytes(script[..used]) + Bytes(script[used..][..more]) == Bytes(script[..used + more])
  {
    assert script[..used + more] == script[..used] + script[used..][..more];
    BytesAppend(script[..used], script[used..][..more]);
  }

  // ---------- readLine ----------

  /** The bytes that come before the first error or end of file. */
  function Stream(script: seq<ReadResult>): string {
    if script == [] || script[0].Failed? || script[0] == Data("") then ""
    else (if script[0].Data? then script[0].bytes else "") + Stream(script[1..])
  }

  /** The stream ends before the first error or empty answer; interruptions make no difference to it. */
  lemma {:induction false} StreamEndsWhere(script: seq<ReadResult>, k: nat)
    requires k <= |script| && (forall i :: 0 <= i < k ==> script[i] != Failed && script[i] != Data(""))
    requires k < |script| ==> script[k] == Failed || script[k] == Data("")
    ensures Stream(script) == Bytes(script[..k])
    decreases k
  {
    if k > 0 {
      StreamEndsWhere(script[1..], k - 1);
      assert script[..k][1..] == script[1..][..k - 1];
    }
  }

  /** The text before the first newline, all of it if there is none. */
  function FirstLine(s: string): (line: string)
    ensures line <= s && END_LINE !in line
    ensures |line| < |s| ==> s[|line|] == END_LINE
  {
    if s == "" || s[0] == END_LINE then "" else [s[0]] + FirstLine(s[1..])
  }

  lemma FirstLineIs(s: string, n: nat)
    requires n <= |s| && END_LINE !in s[..n] && (n < |s| ==> s[n] == END_LINE)
    ensures FirstLine(s) == s[..n]
  {
    var line := FirstLine(s);
    assert line == s[..|line|];
    forall i | 0 <= i < n
      ensures s[i] != END_LINE
    {
      assert s[..n][i] == s[i];
    }
  }

  /** Whether the part so far already holds a newline decides whether what follows matters. */
  lemma FirstLineAppend(a: string, b: string)
    ensures END_LINE in a ==> FirstLine(a + b) == FirstLine(a)
    ensures END_LINE !in a ==> FirstLine(a + b) == a + FirstLine(b)
  {
    if END_LINE in a {
      var n := |FirstLine(a)|;
      assert FirstLine(a) == a[..n] == (a + b)[..n];
      FirstLineIs(a + b, n);
    } else {
      var n := |a| + |FirstLine(b)|;
      assert (a + b)[..n] == a + FirstLine(b);
      FirstLineIs(a + b, n);
    }
  }

  method FindEndLine(bytes: string) returns (pos: nat)
    ensures pos <= |bytes| && bytes[..pos] == FirstLine(bytes)
    ensures pos < |bytes| <==> END_LINE in bytes
  {
    pos := 0;
    while pos < |bytes| && bytes[pos] != END_LINE
      invariant pos <= |bytes| && END_LINE !in bytes[..pos]
    {
      pos := pos + 1;
    }
    FirstLineIs(bytes, pos);
    if pos == |bytes| { assert bytes[..pos] == bytes; }
  }

  lemma StreamNext(script: seq<ReadResult>, used: nat)
    requires used < |script|
    ensures script[used].Interrupted? ==> Stream(script[used..]) == Stream(script[used + 1..])
    ensures script[used].Failed? || script[used] == Data("") ==> Stream(script[used..]) == ""
    ensures script[used].Data? && script[used].bytes != "" ==>
      Stream(script[used..]) == script[used].bytes + Stream(script[used + 1..])
  {
    assert script[used..][1..] == script[used + 1..];
  }

  lemma Regroup(a: string, b: string, c: string)
    ensures a + (b + c) == (a + b) + c
  {
  }

  /**
   One answer more, behind text that holds no newline: either the line ends in it, or all of it belongs to the line.
   */
  lemma LineNext(result: string, seen: string, bytes: string, rest: string, pos: nat)
    requires END_LINE !in seen && pos <= |bytes| && bytes[..pos] == FirstLine(bytes)
    ensures pos < |bytes| ==>
      && (result + seen) + bytes[..pos] == result + FirstLine(seen + (bytes + rest))
      && |FirstLine(seen + (bytes + rest))| == |seen| + pos
    ensures pos == |bytes| ==>
      && (result + seen) + bytes[..pos] == result + (seen + bytes)
      && seen + (bytes + rest) == (seen + bytes) + rest && END_LINE !in seen + bytes
  {
    FirstLineAppend(seen, bytes + rest);
    if pos < |bytes| {
      assert bytes[pos] == END_LINE;
      FirstLineAppend(bytes, rest);
      Regroup(result, seen, bytes[..pos]);
    } else {
      assert bytes[..pos] == bytes;
      Regroup(result, seen, bytes);
      Regroup(seen, bytes, rest);
    }
  }

  /**
   readLine appends exactly the bytes before the first newline of the stream, however the kernel cuts the stream into
   answers; without a newline, all the bytes received before the end or an error.
   */
  method ReadLine(script: seq<ReadResult>, result: string) returns (total: nat, out: string)
    ensures out == result + FirstLine(Stream(script))
    ensures total == |FirstLine(Stream(script))|
  {
    total, out := 0, result;
    var used := 0;
    assert script[0..] == script;
    ghost var seen := "";
    while used < |script|
      invariant used <= |script| && END_LINE !in seen
      invariant Stream(script) == seen + Stream(script[used..])
      invariant out == result + seen && total == |seen|
    {
      StreamNext(script, used);
      var answer := script[used];
      used := used + 1;
      if answer.Failed? || answer == Data("") {
        FirstLineAppend(seen, "");
        return;
      }
      if answer.Data? {
        var pos := FindEndLine(answer.bytes);
        LineNext(result, seen, answer.bytes, Stream(script[used..]), pos);
        out := out + answer.bytes[..pos];
        total := total + pos;
        if pos != |answer.bytes| {
          return;
        }
        seen := seen + answer.bytes;
      }
    }
    FirstLineAppend(seen, "");
  }

  // ---------- recv without WAITALL ----------

  /** The answers recv takes before it stops by itself: up to an error, an end or a buffer that is not full. */
  function Reached(script: seq<ReadResult>): string {
    if script == [] || script[0].Failed? then ""
    else if script[0].Interrupted? then Reached(script[1..])
    else if |script[0].bytes| != READ_BUFFER_SIZE then script[0].bytes
    else script[0].bytes + Reached(script[1..])
  }

  /** What recv would take with room enough is what a read takes: it ends where a read ends. */
  lemma {:induction false} ReachedIsGot(script: seq<ReadResult>)
    ensures Reached(script) == Got(script)
    decreases |script|
  {
    if script != [] {
      var used := Asked(script);
      assert used > 0 && script[..used][1..] == script[1..][..used - 1];
      ReachedIsGot(script[1..]);
      assert Bytes(script[1..][..0]) == "";
    }
  }

  function Take(s: string, n: nat): (t: string)
    ensures t <= s && |t| <= n && (|t| < n ==> t == s)
  {
    if |s| <= n then s else s[..n]
  }

  /** An answer that overshoots: the part of it that still fits ends the text. */
  lemma TakeCut(result: string, bytes: string, rest: string, n: nat)
    requires |result| <= n < |result| + |bytes|
    ensures Take(result + bytes, n) == result + bytes[..n - |result|]
    ensures Take(result + (bytes + rest), n) == result + bytes[..n - |result|]
  {
  }

  lemma ReachedNext(script: seq<ReadResult>, used: nat)
    requires used < |script|
    ensures script[used].Interrupted? ==> Reached(script[used..]) == Reached(script[used + 1..])
    ensures script[used].Failed? ==> Reached(script[used..]) == ""
    ensures script[used].Data? ==> exists rest ::
      Reached(script[used..]) == script[used].bytes + rest
      && rest == if |script[used].bytes| == READ_BUFFER_SIZE then Reached(script[used + 1..]) else ""
  {
    assert script[used..][1..] == script[used + 1..];
    if script[used].Data? && |script[used].bytes| != READ_BUFFER_SIZE {
      assert Reached(script[used..]) == script[used].bytes + "";
    }
  }

  /** What one call of recv has made of the answers it has used. */
  ghost predicate Received(script: seq<ReadResult>, used: nat, result: string) {
    used <= |script| && result == Bytes(script[..used]) && Reached(script) == result + Reached(script[used..])
  }

  lemma ReceivedNothing(script: seq<ReadResult>, used: nat, result: string)
    requires Received(script, used, result) && used < |script| && script[used].Interrupted?
    ensures Received(script, used + 1, result)
  {
    BytesNext(script, used);
    ReachedNext(script, used);
  }

  /** What the answer promises, in terms of the stream and of the answers used. */
  ghost predicate Answers(script: seq<ReadResult>, used: nat, maxLength: nat, result: string) {
    && used <= |script|
    && result == Take(Reached(script), maxLength) && result == Take(Bytes(script[..used]), maxLength)
    && (|Reached(script)| <= maxLength ==> result == Bytes(script[..used]))
  }

  lemma ReceivedAll(script: seq<ReadResult>, result: string, maxLength: nat)
    requires Received(script, |script|, result) && |result| <= maxLength
    ensures Answers(script, |script|, maxLength, result)
  {
    assert result + "" == result;
  }

  lemma ReceivedEnd(script: seq<ReadResult>, used: nat, result: string, maxLength: nat)
    requires Received(script, used, result) && used < |script| && |result| <= maxLength
    requires script[used].Failed? || script[used] == Data("")
    ensures Answers(script, used + 1, maxLength, result)
  {
    BytesNext(script, used);
    ReachedNext(script, used);
    assert result + "" == result;
  }

  lemma ReceivedMore(script: seq<ReadResult>, used: nat, result: string, bytes: string)
    requires Received(script, used, result) && used < |script| && script[used] == Data(bytes)
    ensures Bytes(script[..used + 1]) == result + bytes
    ensures |bytes| == READ_BUFFER_SIZE ==> Received(script, used + 1, result + bytes)
    ensures |bytes| != READ_BUFFER_SIZE ==> Reached(script) == result + bytes
  {
    BytesNext(script, used);
    ReachedNext(script, used);
    Regroup(result, bytes, Reached(script[used + 1..]));
  }

  lemma ReceivedLast(script: seq<ReadResult>, used: nat, result: string, bytes: string, maxLength: nat)
    requires Received(script, used, result) && used < |script| && script[used] == Data(bytes)
    requires |bytes| != READ_BUFFER_SIZE && |result| + |bytes| <= maxLength
    ensures Answers(script, used + 1, maxLength, result + bytes)
  {
    ReceivedMore(script, used, result, bytes);
  }

  lemma ReceivedTooMuch(script: seq<ReadResult>, used: nat, result: string, bytes: string, maxLength: nat)
    requires Received(script, used, result) && used < |script| && script[used] == Data(bytes)
    requires |result| <= maxLength < |result| + |bytes|
    ensures Answers(script, used + 1, maxLength, result + bytes[..maxLength - |result|])
  {
    ReceivedMore(script, used, result, bytes);
    TakeCut(result, bytes, Reached(script[used + 1..]), maxLength);
    if |bytes| == READ_BUFFER_SIZE {
      Regroup(result, bytes, Reached(script[used + 1..]));
    }
  }

  /**
   recv answers a prefix of the stream no longer than asked for, and of what the kernel handed over during the call: the
   surplus of the last answer is gone.
   */
  method Recv(script: seq<ReadResult>, maxLength: nat) returns (total: nat, result: string, used: nat)
    ensures result == Take(Reached(script), maxLength) && total == |result|
    ensures used <= |script| && result == Take(Bytes(script[..used]), maxLength)
    ensures |Reached(script)| <= maxLength ==> result == Bytes(script[..used])
  {
    total, result, used := 0, "", 0;
    assert script[0..] == script;
    while used < |script|
      invariant Received(script, used, result) && total == |result| <= maxLength
      decreases |script| - used
    {
      var answer := script[used];
      used := used + 1;
      if answer.Interrupted? {
        ReceivedNothing(script, used - 1, result);
        continue;
      }
      if answer.Failed? || answer == Data("") {
        ReceivedEnd(script, used - 1, result, maxLength);
        return;
      }
      if total + |answer.bytes| > maxLength {
        ReceivedTooMuch(script, used - 1, result, answer.bytes, maxLength);
        result := result + answer.bytes[..maxLength - total];
        total := maxLength;
        return;
      }
      if |answer.bytes| != READ_BUFFER_SIZE {
        ReceivedLast(script, used - 1, result, answer.bytes, maxLength);
      } else {
        ReceivedMore(script, used - 1, result, answer.bytes);
      }
      result := result + answer.bytes;
      total := total + |answer.bytes|;
      if |answer.bytes| != READ_BUFFER_SIZE {
        return;
      }
    }
    ReceivedAll(script, result, maxLength);
  }

  /** A request smaller than the buffer loses nothing, as long as the kernel keeps to the length it was given. */
  lemma {:induction false} SmallRequestsLoseNothing(script: seq<ReadResult>, maxLength: nat)
    requires maxLength < READ_BUFFER_SIZE && Fits(script, maxLength)
    ensures Take(Reached(script), maxLength) == Reached(script)
  {
    if script != [] && script[0].Interrupted? {
      SmallRequestsLoseNothing(script[1..], maxLength);
    }
  }

  /** A request for exactly one buffer asks again when the buffer came back full, and drops what it gets then. */
  lemma FullRequestLoses(full: string, more: string)
    requires |full| == READ_BUFFER_SIZE && 0 < |more| < READ_BUFFER_SIZE
    ensures Fits([Data(full), Data(more)], READ_BUFFER_SIZE)
    ensures Reached([Data(full), Data(more)]) == full + more
    ensures Take(Reached([Data(full), Data(more)]), READ_BUFFER_SIZE) == full
  {
    assert [Data(full), Data(more)][1..] == [Data(more)];
  }

  /** What one answer can hold: no more than was asked for, nor than the buffer. */
  function Room(maxLength: nat): nat {
    if maxLength < READ_BUFFER_SIZE then maxLength else READ_BUFFER_SIZE
  }

  function FullAnswers(count: nat): (script: seq<ReadResult>)
    ensures Fits(script, READ_BUFFER_SIZE)
  {
    if count == 0 then [] else [Data(seq(READ_BUFFER_SIZE, _ => 'x'))] + FullAnswers(count - 1)
  }

  lemma {:induction false} FullAnswersFill(count: nat)
    ensures |Reached(FullAnswers(count))| == count * READ_BUFFER_SIZE
  {
    if count > 0 {
      FullAnswersFill(count - 1);
      assert FullAnswers(count)[1..] == FullAnswers(count - 1);
    }
  }

  /** Whatever the kernel answers, a request loses nothing exactly when it is smaller than the buffer. */
  lemma NeverLosesExactlyWhen(maxLength: nat)
    ensures (forall script :: Fits(script, Room(maxLength)) ==> Take(Reached(script), maxLength) == Reached(script))
      <==> maxLength < READ_BUFFER_SIZE
  {
    if maxLength < READ_BUFFER_SIZE {
      forall script | Fits(script, Room(maxLength))
        ensures Take(Reached(script), maxLength) == Reached(script)
      {
        SmallRequestsLoseNothing(script, maxLength);
      }
    } else {
      var count := maxLength / READ_BUFFER_SIZE + 1;
      FullAnswersFill(count);
      assert Fits(FullAnswers(count), Room(maxLength));
      assert |Reached(FullAnswers(count))| > maxLength;
    }
  }

  // ---------- write ----------

  /** How many bytes the kernel is ready to take before it meets an error. */
  function Ready(script: seq<WriteResult>): nat {
    if script == [] || script[0].WriteFailed? then 0
    else (if script[0].Took? then script[0].count else 0) + Ready(script[1..])
  }

  /** The counts up to the first error, added up; what comes behind it does not matter. */
  lemma {:induction false} ReadyEndsWhere(a: seq<WriteResult>, b: seq<WriteResult>)
    requires forall i :: 0 <= i < |a| ==> a[i] != WriteFailed
    ensures Ready(a + b) == Ready(a) + Ready(b)
    ensures Ready(a + [WriteFailed] + b) == Ready(a)
    ensures forall n :: Ready(a + [Took(n)]) == Ready(a) + n
    ensures Ready(a + [WriteInterrupted]) == Ready(a)
    decreases |a|
  {
    if a == [] {
      assert a + b == b && a + [WriteFailed] + b == [WriteFailed] + b;
      assert a + [WriteInterrupted] == [WriteInterrupted] && [WriteInterrupted][1..] == [];
      forall n
        ensures Ready(a + [Took(n)]) == n
      {
        assert a + [Took(n)] == [Took(n)] && [Took(n)][1..] == [];
      }
    } else {
      ReadyEndsWhere(a[1..], b);
      assert (a + b)[1..] == a[1..] + b && (a + [WriteFailed] + b)[1..] == a[1..] + [WriteFailed] + b;
      assert (a + [WriteInterrupted])[1..] == a[1..] + [WriteInterrupted];
      forall n
        ensures Ready(a + [Took(n)]) == Ready(a) + n
      {
        assert (a + [Took(n)])[1..] == a[1..] + [Took(n)];
      }
    }
  }

  /**
   write: the kernel gets the first bytes of the data, in order, none twice, as many as it is ready to take; the answer
   says how many.
   */
  method Write(script: seq<WriteResult>, data: string, sink: string) returns (total: nat, sunk: string)
    ensures total == if Ready(script) < |data| then Ready(script) else |data|
    ensures sunk == sink + data[..total]
  {
    total, sunk := 0, sink;
    var used := 0;
    assert script[0..] == script;
    while total < |data|
      invariant used <= |script| && total <= |data| && sunk == sink + data[..total]
      invariant total < |data| ==> Ready(script) == total + Ready(script[used..])
      invariant total == |data| ==> Ready(script) >= total
      decreases |script| - used
    {
      if used == |script| {
        return;
      }
      assert script[used..][1..] == script[used + 1..];
      var answer := script[used];
      used := used + 1;
      match answer {
        case WriteInterrupted =>
        case WriteFailed =>
          return;
        case Took(count) =>
          var n := if count < |data| - total then count else |data| - total;
          assert data[..total] + data[total..total + n] == data[..total + n];
          sunk := sunk + data[total..total + n];
          total := total + n;
      }
    }
  }
}
