/** The buffered log writer: what has reached the file and what is still in the buffer, for any messages and any
    clock. Writes to the file succeed here. */
module LogWriter {
  import opened Wrappers

  const NEWLINE: Byte := 10
  const FLUSH_SIZE: nat := 32 * 1024
  const FLUSH_MS: int := 100

  datatype LogMessage = Content(bytes: Bytes) | Shutdown

  /** The messages up to the first `Shutdown`, each with one newline. */
  function Rendered(messages: seq<LogMessage>): Bytes {
    if messages == [] || messages[0].Shutdown? then []
    else messages[0].bytes + [NEWLINE] + Rendered(messages[1..])
  }

  predicate HasShutdown(messages: seq<LogMessage>) {
    Shutdown in messages
  }

  /** `writer_task` and `writer_task_sync` are the same loop. `clock(k)` is the time, in milliseconds, at which
      message `k` is handled; the channel closes after `messages`. The file holds the first `flushed` messages,
      never part of one, and the rest is in the buffer: at most 32 KiB, taken in at most 100 ms after the last
      flush. A shutdown is acknowledged once everything before it is in the file; a channel that closes without
      one leaves the buffer unwritten. */
  method WriterTask(messages: seq<LogMessage>, start: int, clock: nat -> int, before: Bytes)
    returns (file: Bytes, buffer: Bytes, flushed: nat, acknowledged: bool)
    ensures acknowledged <==> HasShutdown(messages)
    ensures acknowledged ==> file == before + Rendered(messages)
    ensures !acknowledged ==> file + buffer == before + Rendered(messages)
    ensures flushed <= |messages| && file == before + Rendered(messages[..flushed])
    ensures |buffer| <= 32_768
    ensures !acknowledged ==> InTime(start, clock, flushed, |messages|)
  {
    file, buffer, flushed, acknowledged := before, [], 0, false;
    var lastFlush := start;
    var k := 0;
    while k < |messages|
      invariant 0 <= k <= |messages| && flushed <= k && !HasShutdown(messages[..k])
      invariant file + buffer == before + Rendered(messages[..k])
      invariant file == before + Rendered(messages[..flushed])
      invariant |buffer| <= FLUSH_SIZE
      invariant lastFlush == LastFlush(start, clock, flushed) && InTime(start, clock, flushed, k)
    {
      var message := messages[k];
      assert messages[..k + 1][..k] == messages[..k];
      match message {
        case Content(bytes) =>
          OneMoreLine(messages, k, before, file, buffer);
          buffer := buffer + bytes;
          buffer := buffer + [NEWLINE];
          var now := clock(k);
          if |buffer| > FLUSH_SIZE || now - lastFlush > FLUSH_MS {
            file := file + buffer;
            buffer := [];
            lastFlush := now;
            flushed := k + 1;
          }
        case Shutdown =>
          if buffer != [] {
            file := file + buffer;
          }
          assert messages[k] in messages;
          RenderedStopsAtShutdown(messages, k);
          return file, buffer, k, true;
      }
      k := k + 1;
    }
    assert messages[..k] == messages;
  }

  lemma OneMoreLine(messages: seq<LogMessage>, k: nat, before: Bytes, file: Bytes, buffer: Bytes)
    requires k < |messages| && messages[k].Content? && !HasShutdown(messages[..k])
    requires file + buffer == before + Rendered(messages[..k])
    ensures file + (buffer + messages[k].bytes + [NEWLINE]) == before + Rendered(messages[..k + 1])
  {
    var line := messages[k].bytes + [NEWLINE];
    RenderedLast(messages[..k], messages[k]);
    assert messages[..k + 1] == messages[..k] + [messages[k]];
    assert file + (buffer + messages[k].bytes + [NEWLINE]) == (file + buffer) + line;
  }

  /** One more message after others without a `Shutdown` is one more line at the end. */
  lemma {:induction false} RenderedLast(messages: seq<LogMessage>, last: LogMessage)
    requires last.Content? && !HasShutdown(messages)
    ensures Rendered(messages + [last]) == Rendered(messages) + (last.bytes + [NEWLINE])
    decreases |messages|
  {
    if messages == [] {
      assert [last][1..] == [];
    } else {
      assert messages[0] in messages;
      assert (messages + [last])[1..] == messages[1..] + [last];
      RenderedLast(messages[1..], last);
    }
  }

  function LastFlush(start: int, clock: nat -> int, flushed: nat): int {
    if flushed == 0 then start else clock(flushed - 1)
  }

  /** Everything that is still in the buffer was handled within 100 ms of the last flush. */
  predicate InTime(start: int, clock: nat -> int, flushed: nat, handled: nat) {
    forall j :: flushed <= j < handled ==> clock(j) - LastFlush(start, clock, flushed) <= 100
  }

  lemma {:induction false} RenderedStopsAtShutdown(messages: seq<LogMessage>, k: nat)
    requires k < |messages| && messages[k] == Shutdown && !HasShutdown(messages[..k])
    ensures Rendered(messages) == Rendered(messages[..k])
    decreases |messages|
  {
    if 0 < k {
      assert messages[..k][1..] == messages[1..][..k - 1];
      assert messages[..k][0] == messages[0];
      RenderedStopsAtShutdown(messages[1..], k - 1);
    }
  }

  /** What the messages before the first `Shutdown` have in them. */
  function Contents(messages: seq<LogMessage>): seq<Bytes> {
    if messages == [] || messages[0].Shutdown? then [] else [messages[0].bytes] + Contents(messages[1..])
  }

  /** The lines of a file that ends with a newline. */
  function Lines(file: Bytes, line: Bytes): seq<Bytes> {
    if file == [] then []
    else if file[0] == 10 then [line] + Lines(file[1..], [])
    else Lines(file[1..], line + [file[0]])
  }

  lemma {:induction false} OneLine(text: Bytes, rest: Bytes, line: Bytes)
    requires 10 !in text
    ensures Lines(text + [10] + rest, line) == [line + text] + Lines(rest, [])
    decreases |text|
  {
    var file := text + [10] + rest;
    if text == [] {
      assert file[1..] == rest && line + text == line;
    } else {
      assert file[1..] == text[1..] + [10] + rest;
      OneLine(text[1..], rest, line + [text[0]]);
      assert line + [text[0]] + text[1..] == line + text;
    }
  }

  /** Reading the lines back gives the messages, if none has a newline in it. */
  lemma {:induction false} LinesAreMessages(messages: seq<LogMessage>)
    requires forall i :: 0 <= i < |messages| && messages[i].Content? ==> 10 !in messages[i].bytes
    ensures Lines(Rendered(messages), []) == Contents(messages)
    decreases |messages|
  {
    if messages != [] {
      if messages[0].Content? {
        LinesAreMessages(messages[1..]);
        OneLine(messages[0].bytes, Rendered(messages[1..]), []);
        assert [] + messages[0].bytes == messages[0].bytes;
      }
    }
  }
}
