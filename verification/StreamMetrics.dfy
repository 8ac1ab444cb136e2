/** Finding the usage record of a streamed response: the backward scan over the body
    against the obvious forward one.  Whether a payload is JSON that carries usage or
    timings is a parameter. */
module StreamMetrics {

  import opened Common

  /** The UTF-8 encodings of the characters that Unicode calls white space; a body is a sequence
      of bytes, written as characters. */
  predicate IsSpace(s: string) {
    match |s|
    case 1 => s[0] in {'\t', '\n', 0x0b as char, 0x0c as char, '\r', ' '}
    case 2 => s[0] == 0xc2 as char && s[1] in {0x85 as char, 0xa0 as char}
    case 3 =>
      || (s[0] == 0xe1 as char && s[1] == 0x9a as char && s[2] == 0x80 as char)
      || (s[0] == 0xe2 as char && s[1] == 0x80 as char && (0x80 as char <= s[2] <= 0x8a as char || s[2] in {0xa8 as char, 0xa9 as char, 0xaf as char}))
      || (s[0] == 0xe2 as char && s[1] == 0x81 as char && s[2] == 0x9f as char)
      || (s[0] == 0xe3 as char && s[1] == 0x80 as char && s[2] == 0x80 as char)
    case _ => false
  }

  /** The length of the white space character that `s` begins, or ends, with; 0 if none. */
  function LeadingSpace(s: string): (n: nat)
    ensures n <= |s| && (n > 0 ==> IsSpace(s[..n]))
  {
    if |s| >= 1 && IsSpace(s[..1]) then 1 else if |s| >= 2 && IsSpace(s[..2]) then 2 else if |s| >= 3 && IsSpace(s[..3]) then 3 else 0
  }

  function TrailingSpace(s: string): (n: nat)
    ensures n <= |s| && (n > 0 ==> IsSpace(s[|s| - n..]))
  {
    if |s| >= 1 && IsSpace(s[|s| - 1..]) then 1
    else if |s| >= 2 && IsSpace(s[|s| - 2..]) then 2
    else if |s| >= 3 && IsSpace(s[|s| - 3..]) then 3
    else 0
  }

  function TrimLeft(s: string): string {
    var n := LeadingSpace(s);
    if n > 0 then TrimLeft(s[n..]) else s
  }

  function TrimRight(s: string): string {
    var n := TrailingSpace(s);
    if n > 0 then TrimRight(s[..|s| - n]) else s
  }

  /** bytes.TrimSpace. */
  function TrimSpace(s: string): string {
    TrimRight(TrimLeft(s))
  }

  /** The payload of one line, if it is one the scan stops at. */
  function Payload(line: string, carries: string -> bool): Option<string> {
    var t := TrimSpace(line);
    if !("data:" <= t) then None
    else
      var data := TrimSpace(t[5..]);
      if data == "" || data == "[DONE]" || !carries(data) then None else Some(data)
  }

  /** Splitting the body at every newline. */
  function Lines(body: string): (ls: seq<string>)
    ensures |ls| > 0
  {
    if body == "" then [""]
    else
      var rest := Lines(body[1..]);
      if body[0] == '\n' then [""] + rest else [[body[0]] + rest[0]] + rest[1..]
  }

  /** The test of one line, as a function of the line. */
  function PayloadOf(carries: string -> bool): string -> Option<string> {
    line => Payload(line, carries)
  }

  /** The simple scan: all lines in order, the last payload wins. */
  function LastPayload(lines: seq<string>, payload: string -> Option<string>): Option<string> {
    if lines == [] then None
    else
      var p := payload(lines[|lines| - 1]);
      if p.Some? then p else LastPayload(lines[..|lines| - 1], payload)
  }

  /** bytes.LastIndexByte. */
  method LastIndex(s: string, c: char) returns (i: int)
    ensures -1 <= i < |s|
    ensures i >= 0 ==> s[i] == c
    ensures forall j :: i < j < |s| ==> s[j] != c
  {
    i := |s| - 1;
    while i >= 0
      invariant -1 <= i < |s|
      invariant forall j :: i < j < |s| ==> s[j] != c
    {
      if s[i] == c {
        return;
      }
      i := i - 1;
    }
  }

  lemma {:induction false} OneLine(s: string)
    requires '\n' !in s
    ensures Lines(s) == [s]
  {
    if s == "" {
    } else {
      OneLine(s[1..]);
      assert [s[0]] + s[1..] == s;
    }
  }

  lemma {:induction false} SplitAtLastNewline(a: string, b: string)
    requires '\n' !in b
    ensures Lines(a + "\n" + b) == Lines(a) + [b]
  {
    var s := a + "\n" + b;
    if a == "" {
      assert s[1..] == b && s[0] == '\n';
      OneLine(b);
    } else {
      SplitAtLastNewline(a[1..], b);
      assert s[1..] == a[1..] + "\n" + b && s[0] == a[0];
    }
  }

  lemma LastOfSplit(rest: string, last: string, payload: string -> Option<string>)
    requires '\n' !in last
    ensures LastPayload(Lines(rest + "\n" + last), payload) ==
              if payload(last).Some? then payload(last) else LastPayload(Lines(rest), payload)
  {
    SplitAtLastNewline(rest, last);
    assert (Lines(rest) + [last])[..|Lines(rest)|] == Lines(rest);
  }

  /** The loop over the lines from the end, for any test of a line that an empty line fails. */
  method ScanLines(body: string, payload: string -> Option<string>) returns (found: Option<string>)
    requires payload("").None?
    ensures found == LastPayload(Lines(body), payload)
  {
    var pos := |body|;
    assert body[..pos] == body;
    while pos > 0
      invariant -1 <= pos <= |body|
      invariant LastPayload(Lines(body), payload) == if pos >= 0 then LastPayload(Lines(body[..pos]), payload) else None
      decreases pos
    {
      var newline := LastIndex(body[..pos], '\n');
      var lineStart := if newline == -1 then 0 else newline + 1;
      var line := body[lineStart..pos];
      if newline == -1 {
        OneLine(line);
        assert body[..pos] == line;
      } else {
        LastOfSplit(body[..newline], line, payload);
        assert body[..pos] == body[..newline] + "\n" + line;
      }
      pos := lineStart - 1;
      found := payload(line);
      if found.Some? {
        return;
      }
    }
    assert pos == 0 ==> Lines(body[..pos]) == [""];
    return None;
  }

  /** processStreamingResponse: the backward scan returns the payload of the last line that
      carries one, and reports absence exactly when no line does. */
  method ScanBackward(body: string, carries: string -> bool) returns (found: Option<string>)
    ensures found == LastPayload(Lines(body), PayloadOf(carries))
  {
    found := ScanLines(body, PayloadOf(carries));
  }

  /** The simple scan in terms of positions: some payload of some line, and none later. */
  lemma {:induction false} LastPayloadIs(lines: seq<string>, payload: string -> Option<string>)
    ensures match LastPayload(lines, payload)
            case None => forall i :: 0 <= i < |lines| ==> payload(lines[i]).None?
            case Some(p) => exists i :: 0 <= i < |lines| && payload(lines[i]) == Some(p)
                                        && forall j :: i < j < |lines| ==> payload(lines[j]).None?
  {
    if lines == [] {
    } else if payload(lines[|lines| - 1]).None? {
      LastPayloadIs(lines[..|lines| - 1], payload);
    }
  }

  /** Lines is splitting on newlines: joining gives the body back, no line holds one. */
  lemma {:induction false} LinesIsSplit(body: string)
    ensures Join(Lines(body), "\n") == body && forall l <- Lines(body) :: '\n' !in l
  {
    if body == "" {
    } else {
      LinesIsSplit(body[1..]);
      var rest := Lines(body[1..]);
      assert body == [body[0]] + body[1..];
      if body[0] == '\n' {
        assert ([""] + rest)[1..] == rest;
      } else {
        assert ([[body[0]] + rest[0]] + rest[1..])[1..] == rest[1..];
      }
    }
  }
}
