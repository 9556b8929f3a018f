/** Newline framing of messages on a stream (comm/p2p/util.go). */
module Framing {
  import opened Wrappers

  /** The stream as written so far by one side, and how far the other side has read it. */
  class Stream {
    var written: string
    var position: nat

    constructor ()
      ensures written == "" && position == 0
    {
      written, position := "", 0;
    }

    predicate Valid()
      reads this
    {
      position <= |written|
    }

    ghost function Unread(): string
      requires Valid()
      reads this
    {
      written[position..]
    }

    method WriteStream(msg: string)
      requires Valid()
      modifies this`written
      ensures Valid() && Unread() == old(Unread()) + msg + "\n"
    {
      written := written + msg + "\n";
    }

    /** `ReadString` of the buffered reader: takes the text up to and including the next newline. */
    method ReadString() returns (line: Option<string>)
      requires Valid()
      modifies this`position
      ensures Valid()
      ensures match FirstMessage(old(Unread()))
              case None => line == None && Unread() == ""
              case Some(m) => line == Some(m + "\n") && Unread() == old(Unread())[|m| + 1..]
    {
      ghost var unread := Unread();
      var n := 0;
      while position + n < |written| && written[position + n] != '\n'
        invariant n <= |unread| && '\n' !in unread[..n]
      {
        assert unread[..n + 1] == unread[..n] + [unread[n]];
        n := n + 1;
      }
      if position + n == |written| {
        assert unread[..n] == unread;
        position := |written|;
        return None;
      }
      FirstNewline(unread, n);
      assert written[position..position + n + 1] == unread[..n + 1];
      line := Some(written[position..position + n + 1]);
      position := position + n + 1;
    }

    /** Reads one message; `None` when the stream ends before a newline. */
    method ReadStream() returns (msg: Option<string>)
      requires Valid()
      modifies this`position
      ensures Valid()
      ensures msg == FirstMessage(old(Unread()))
      ensures Unread() == if msg.Some? then old(Unread())[|msg.value| + 1..] else ""
    {
      ghost var first := FirstMessage(Unread());
      var line := ReadString();
      if line.None? {
        return None;
      }
      TrimLast(first.value);
      return Some(TrimNewlines(line.value));
    }

    /** The receiving loop: takes messages until the stream ends or one does not decode. */
    method ReadMessages(decodes: string -> bool) returns (msgs: seq<string>)
      requires Valid()
      modifies this`position
      ensures Valid() && msgs == ReadAll(decodes, old(Unread()))
    {
      msgs := [];
      ghost var unread := Unread();
      while true
        invariant Valid()
        invariant msgs + ReadAll(decodes, Unread()) == ReadAll(decodes, unread)
        decreases |Unread()|
      {
        ghost var before := Unread();
        var msg := ReadStream();
        ReadAllStep(decodes, before, msgs, msg, Unread());
        if msg.None? || !decodes(msg.value) {
          return;
        }
        msgs := msgs + [msg.value];
      }
    }
  }

  /** `strings.Trim(msg, "\n")`. */
  function TrimNewlines(msg: string): string {
    if msg == "" then ""
    else if msg[0] == '\n' then TrimNewlines(msg[1..])
    else if msg[|msg| - 1] == '\n' then TrimNewlines(msg[..|msg| - 1])
    else msg
  }

  /** The text before the first newline, if there is one. */
  function FirstMessage(unread: string): (msg: Option<string>)
    ensures msg.Some? ==> |msg.value| < |unread| && unread[|msg.value|] == '\n' && '\n' !in msg.value
                          && msg.value == unread[..|msg.value|]
    ensures msg.None? <==> '\n' !in unread
  {
    if unread == "" then None
    else if unread[0] == '\n' then Some("")
    else match FirstMessage(unread[1..])
      case None => None
      case Some(rest) => Some([unread[0]] + rest)
  }

  lemma {:induction false} FirstNewline(unread: string, n: nat)
    requires n < |unread| && '\n' !in unread[..n] && unread[n] == '\n'
    ensures FirstMessage(unread) == Some(unread[..n]) && unread[..n + 1] == unread[..n] + "\n"
  {
    if n > 0 {
      assert unread[..n] == [unread[0]] + unread[1..][..n - 1];
      FirstNewline(unread[1..], n - 1);
    }
  }

  lemma TrimLast(msg: string)
    requires '\n' !in msg
    ensures TrimNewlines(msg + "\n") == msg
  {
    var s := msg + "\n";
    if msg != "" {
      assert s[0] == msg[0] && msg[0] in msg;
      assert s[..|s| - 1] == msg;
      assert msg[|msg| - 1] in msg;
    }
  }

  function WriteAll(msgs: seq<string>): string {
    if msgs == [] then "" else msgs[0] + "\n" + WriteAll(msgs[1..])
  }

  /** All messages taken until the stream ends or one does not decode. */
  function ReadAll(decodes: string -> bool, unread: string): seq<string>
    decreases |unread|
  {
    match FirstMessage(unread)
    case None => []
    case Some(m) => if decodes(m) then [m] + ReadAll(decodes, unread[|m| + 1..]) else []
  }

  lemma ReadAllStep(decodes: string -> bool, unread: string, msgs: seq<string>, msg: Option<string>, rest: string)
    requires msg == FirstMessage(unread) && (msg.Some? ==> rest == unread[|msg.value| + 1..])
    ensures msgs + ReadAll(decodes, unread) ==
            if msg.Some? && decodes(msg.value) then (msgs + [msg.value]) + ReadAll(decodes, rest) else msgs
  {
    if msg.Some? && decodes(msg.value) {
      Regroup(msgs, msg.value, ReadAll(decodes, rest));
    }
  }

  lemma Regroup<T>(s: seq<T>, x: T, t: seq<T>)
    ensures s + ([x] + t) == (s + [x]) + t
  {}

  lemma FirstWritten(msg: string, rest: string)
    ensures var stream := msg + "\n" + rest;
            if '\n' in msg then FirstMessage(stream) != Some(msg)
            else FirstMessage(stream) == Some(msg) && stream[|msg| + 1..] == rest
  {
    var stream := msg + "\n" + rest;
    assert stream[|msg|] == '\n';
    if '\n' !in msg {
      assert stream[..|msg|] == msg;
      FirstNewline(stream, |msg|);
    }
  }

  lemma ReadWritten(decodes: string -> bool, msg: string, rest: seq<string>)
    requires '\n' !in msg
    ensures ReadAll(decodes, WriteAll([msg] + rest)) ==
            if decodes(msg) then [msg] + ReadAll(decodes, WriteAll(rest)) else []
  {
    assert ([msg] + rest)[1..] == rest;
    FirstWritten(msg, WriteAll(rest));
  }

  /** What is taken from the stream is what was written to it exactly when no message contains a
      newline and all of them decode. Framing alone, with everything decoding, loses nothing, empty
      messages included. */
  lemma {:induction false} FramingRoundTrip(decodes: string -> bool, msgs: seq<string>)
    ensures ReadAll(decodes, WriteAll(msgs)) == msgs <==> AllGood(decodes, msgs)
  {
    if msgs != [] {
      assert msgs[0] in msgs;
      assert msgs == [msgs[0]] + msgs[1..];
      if '\n' !in msgs[0] {
        ReadWritten(decodes, msgs[0], msgs[1..]);
        FramingRoundTrip(decodes, msgs[1..]);
      } else {
        FirstWritten(msgs[0], WriteAll(msgs[1..]));
      }
    }
  }

  /** The messages stay in one piece and decode. */
  predicate AllGood(decodes: string -> bool, msgs: seq<string>) {
    forall m | m in msgs :: '\n' !in m && decodes(m)
  }

  /** The messages before the first one that does not decode. */
  function Decoding(decodes: string -> bool, msgs: seq<string>): seq<string> {
    if msgs == [] || !decodes(msgs[0]) then [] else [msgs[0]] + Decoding(decodes, msgs[1..])
  }

  lemma {:induction false} DecodingArrives(decodes: string -> bool, msgs: seq<string>)
    requires forall m | m in msgs :: '\n' !in m
    ensures ReadAll(decodes, WriteAll(msgs)) == Decoding(decodes, msgs)
  {
    if msgs != [] {
      assert msgs[0] in msgs;
      FirstWritten(msgs[0], WriteAll(msgs[1..]));
      DecodingArrives(decodes, msgs[1..]);
    }
  }

  lemma {:induction false} DecodingGood(decodes: string -> bool, good: seq<string>, rest: seq<string>)
    requires AllGood(decodes, good) && (rest != [] ==> !decodes(rest[0]))
    ensures Decoding(decodes, good + rest) == good
  {
    if good != [] {
      assert good[0] in good;
      assert (good + rest)[1..] == good[1..] + rest;
      DecodingGood(decodes, good[1..], rest);
    } else {
      assert good + rest == rest;
    }
  }

  /** Of messages without newlines, those before the first one that does not decode arrive, and no
      others. */
  lemma ArrivesUpToFirstBad(decodes: string -> bool, good: seq<string>, rest: seq<string>)
    requires AllGood(decodes, good) && forall m | m in rest :: '\n' !in m
    requires rest != [] ==> !decodes(rest[0])
    ensures ReadAll(decodes, WriteAll(good + rest)) == good
  {
    DecodingGood(decodes, good, rest);
    DecodingArrives(decodes, good + rest);
  }
}
