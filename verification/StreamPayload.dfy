/** What a line of an event stream says: the white space that bytes.TrimSpace takes away, and the
    payload that is left after "data:".

    A text is its bytes, one character each, and an encoded space takes up to three of them.
    Trimming takes off whole encodings only; bytes that could be a part of one stay. What is
    left is characterised by how lines are put together (spaces, "data:", spaces, data, spaces),
    not by the scans that take them apart. */
module StreamPayload {
  import opened Common
  import opened StreamMetrics

  // ------------------------------------------------------------ white space

  /** UTF-8, for the characters of the basic plane (section 3 of RFC 3629). */
  function Utf8(u: nat): string
    requires u < 0x10000
  {
    if u < 0x80 then [u as char]
    else if u < 0x800 then [(0xc0 + u / 0x40) as char, (0x80 + u % 0x40) as char]
    else [(0xe0 + u / 0x1000) as char, (0x80 + u / 0x40 % 0x40) as char, (0x80 + u % 0x40) as char]
  }

  /** The characters with the Unicode property White_Space. */
  predicate WhiteSpace(u: nat) {
    9 <= u <= 13 || 0x2000 <= u <= 0x200a || u in {0x20, 0x85, 0xa0, 0x1680, 0x2028, 0x2029, 0x202f, 0x205f, 0x3000}
  }

  /** IsSpace knows exactly their encodings. */
  lemma SpacesAreUnicode(u: nat)
    requires u < 0x10000
    ensures IsSpace(Utf8(u)) <==> WhiteSpace(u)
  {
    if u >= 0x800 {
      var a, b, c := u / 0x1000, u / 0x40 % 0x40, u % 0x40;
      assert u == a * 0x1000 + b * 0x40 + c;
    }
  }

  lemma SpaceIsEncoded(s: string) returns (u: nat)
    requires IsSpace(s)
    ensures u < 0x10000 && Utf8(u) == s
  {
    if |s| == 1 {
      u := s[0] as nat;
    } else if |s| == 2 {
      u := (s[0] as nat - 0xc0) * 0x40 + (s[1] as nat - 0x80);
    } else {
      u := (s[0] as nat - 0xe0) * 0x1000 + (s[1] as nat - 0x80) * 0x40 + (s[2] as nat - 0x80);
    }
  }

  function Concat(parts: seq<string>): string {
    if parts == [] then "" else parts[0] + Concat(parts[1..])
  }

  ghost predicate Spaces(parts: seq<string>) {
    forall p <- parts :: IsSpace(p)
  }

  /** No white space at either end. */
  predicate Trimmed(s: string) {
    LeadingSpace(s) == 0 && TrailingSpace(s) == 0
  }

  /** That is: neither the beginning nor the end of the text is the encoding of a space. */
  lemma TrimmedIs(s: string)
    ensures Trimmed(s) <==> forall n :: 0 <= n <= |s| ==> !IsSpace(s[..n]) && !IsSpace(s[n..])
  {
    if Trimmed(s) {
      forall n | 0 <= n <= |s| ensures !IsSpace(s[..n]) && !IsSpace(s[n..]) {
        assert s[n..] == s[|s| - (|s| - n)..];
      }
    } else if LeadingSpace(s) > 0 {
      assert IsSpace(s[..LeadingSpace(s)]);
    } else {
      assert IsSpace(s[|s| - TrailingSpace(s)..]);
    }
  }

  // ---- spaces before and after

  /** No part of an encoded space is one. */
  lemma PartIsNoSpace(space: string, n: nat)
    requires IsSpace(space) && 1 <= n < |space|
    ensures !IsSpace(space[..n]) && !IsSpace(space[|space| - n..])
  {
  }

  lemma FirstSpace(t: string, n: nat)
    requires 1 <= n <= 3 && n <= |t| && IsSpace(t[..n])
    requires n > 1 ==> !IsSpace(t[..1])
    requires n > 2 ==> !IsSpace(t[..2])
    ensures LeadingSpace(t) == n
  {
  }

  lemma LastSpace(t: string, n: nat)
    requires 1 <= n <= 3 && n <= |t| && IsSpace(t[|t| - n..])
    requires n > 1 ==> !IsSpace(t[|t| - 1..])
    requires n > 2 ==> !IsSpace(t[|t| - 2..])
    ensures TrailingSpace(t) == n
  {
  }

  lemma BeginningOf(a: string, b: string, n: nat)
    requires n <= |a|
    ensures (a + b)[..n] == a[..n] && (a + b)[|a|..] == b && (a + b)[..|a|] == a
  {
  }

  lemma EndingOf(a: string, b: string, n: nat)
    requires n <= |b|
    ensures (a + b)[|a + b| - n..] == b[|b| - n..] && (a + b)[..|a|] == a && (a + b)[|a + b| - |b|..] == b
  {
  }

  lemma LeadingOf(space: string, s: string)
    requires IsSpace(space)
    ensures LeadingSpace(space + s) == |space| && (space + s)[|space|..] == s
  {
    BeginningOf(space, s, 0);
    if |space| > 1 {
      PartIsNoSpace(space, 1);
      BeginningOf(space, s, 1);
    }
    if |space| > 2 {
      PartIsNoSpace(space, 2);
      BeginningOf(space, s, 2);
    }
    FirstSpace(space + s, |space|);
  }

  lemma TrailingOf(s: string, space: string)
    requires IsSpace(space)
    ensures TrailingSpace(s + space) == |space| && (s + space)[..|s|] == s
  {
    EndingOf(s, space, 0);
    if |space| > 1 {
      PartIsNoSpace(space, 1);
      EndingOf(s, space, 1);
    }
    if |space| > 2 {
      PartIsNoSpace(space, 2);
      EndingOf(s, space, 2);
    }
    LastSpace(s + space, |space|);
  }

  lemma TrimLeftStep(space: string, s: string)
    requires IsSpace(space)
    ensures TrimLeft(space + s) == TrimLeft(s)
  {
    LeadingOf(space, s);
  }

  lemma TrimRightStep(s: string, space: string)
    requires IsSpace(space)
    ensures TrimRight(s + space) == TrimRight(s)
  {
    TrailingOf(s, space);
  }

  lemma {:induction false} TrimLeftOf(parts: seq<string>, s: string)
    requires Spaces(parts)
    ensures TrimLeft(Concat(parts) + s) == TrimLeft(s)
  {
    if parts == [] {
      assert "" + s == s;
    } else {
      TrimLeftOf(parts[1..], s);
      TrimLeftStep(parts[0], Concat(parts[1..]) + s);
      Regroup(parts[0], Concat(parts[1..]), s);
    }
  }

  lemma {:induction false} TrimRightOf(s: string, parts: seq<string>)
    requires Spaces(parts)
    ensures TrimRight(s + Concat(parts)) == TrimRight(s)
    decreases |parts|
  {
    if parts == [] {
      assert s + "" == s;
    } else {
      TrimRightOf(s + parts[0], parts[1..]);
      Regroup(s, parts[0], Concat(parts[1..]));
      TrimRightStep(s, parts[0]);
    }
  }

  /** The bytes with which an encoded space can begin, and those in the middle or at the end. */
  predicate StartByte(c: char) {
    c < 0x80 as char || c in {0xc2 as char, 0xe1 as char, 0xe2 as char, 0xe3 as char}
  }

  lemma SpaceShape(space: string)
    requires IsSpace(space)
    ensures space != "" && StartByte(space[0])
    ensures forall i :: 0 < i < |space| ==> !StartByte(space[i])
    ensures |space| == 1 <==> space[0] < 0x80 as char
    ensures !(space[|space| - 1] in {0xc2 as char, 0xe1 as char, 0xe2 as char, 0xe3 as char})
  {
  }

  lemma NoSpaceBefore(s: string, rest: string, n: nat)
    requires s != "" && LeadingSpace(s) == 0 && 1 <= n <= 3 && n <= |s + rest| && rest != "" && StartByte(rest[0])
    ensures !IsSpace((s + rest)[..n])
  {
    var t := s + rest;
    if n <= |s| {
      assert t[..n] == s[..n];
    } else {
      assert t[..n][|s|] == rest[0];
      assert t[..n][0] == s[0];
    }
  }

  /** White space behind a text does not make its beginning white space. */
  lemma LeadingKept(s: string, parts: seq<string>)
    requires Spaces(parts) && s != "" && LeadingSpace(s) == 0
    ensures LeadingSpace(s + Concat(parts)) == 0
  {
    if parts == [] {
      assert s + Concat(parts) == s;
    } else {
      var t := s + Concat(parts);
      SpaceShape(parts[0]);
      NoSpaceBefore(s, Concat(parts), 1);
      if |t| >= 2 {
        NoSpaceBefore(s, Concat(parts), 2);
      }
      if |t| >= 3 {
        NoSpaceBefore(s, Concat(parts), 3);
      }
    }
  }

  /** The text does not end inside a character. */
  predicate EndsWhole(s: string) {
    && (|s| >= 1 ==> !MultiStart(s[|s| - 1]))
    && (|s| >= 2 ==> !MultiStart(s[|s| - 2]) || s[|s| - 2] == 0xc2 as char)
  }

  predicate MultiStart(c: char) {
    c in {0xc2 as char, 0xe1 as char, 0xe2 as char, 0xe3 as char}
  }

  lemma {:induction false} EndsWholeSpaces(head: string, parts: seq<string>)
    requires EndsWhole(head) && Spaces(parts)
    ensures EndsWhole(head + Concat(parts))
    decreases |parts|
  {
    if parts == [] {
      assert head + "" == head;
    } else {
      SpaceShape(parts[0]);
      EndsWholeSpaces(head + parts[0], parts[1..]);
      assert head + Concat(parts) == head + parts[0] + Concat(parts[1..]);
    }
  }

  lemma NotASpace(end: string)
    requires |end| >= 2 && (!MultiStart(end[0]) || (end[0] == 0xc2 as char && |end| == 3))
    ensures !IsSpace(end)
  {
  }

  lemma NoSpaceAtEnd(s: string, n: nat)
    requires TrailingSpace(s) == 0 && 1 <= n <= |s|
    ensures !IsSpace(s[|s| - n..])
  {
  }

  lemma NoSpaceAfter(head: string, s: string, n: nat)
    requires s != "" && TrailingSpace(s) == 0 && EndsWhole(head) && 1 <= n <= 3 && n <= |head + s|
    ensures !IsSpace((head + s)[|head + s| - n..])
  {
    if n <= |s| {
      NoSpaceAtEnd(s, n);
      EndOfBoth(head, s, n);
    } else {
      NoSpaceAcross(head, s, n - |s|);
      AcrossBoth(head, s, n - |s|);
    }
  }

  lemma EndOfBoth(head: string, s: string, n: nat)
    requires n <= |s|
    ensures (head + s)[|head + s| - n..] == s[|s| - n..]
  {
  }

  lemma AcrossBoth(head: string, s: string, k: nat)
    requires k <= |head|
    ensures (head + s)[|head + s| - (k + |s|)..] == head[|head| - k..] + s
  {
  }

  lemma NoSpaceAcross(head: string, s: string, k: nat)
    requires s != "" && EndsWhole(head) && 1 <= k <= 2 && k <= |head| && k + |s| <= 3
    ensures !IsSpace(head[|head| - k..] + s)
  {
    NotASpace(head[|head| - k..] + s);
  }

  /** Nor does text before it that ends with a whole character make its end white space. */
  lemma TrailingKept(head: string, s: string)
    requires s != "" && TrailingSpace(s) == 0 && EndsWhole(head)
    ensures TrailingSpace(head + s) == 0
  {
    var t := head + s;
    NoSpaceAfter(head, s, 1);
    if |t| >= 2 {
      NoSpaceAfter(head, s, 2);
    }
    if |t| >= 3 {
      NoSpaceAfter(head, s, 3);
    }
    NoTrailing(t);
  }

  lemma NoTrailing(t: string)
    requires |t| >= 1 ==> !IsSpace(t[|t| - 1..])
    requires |t| >= 2 ==> !IsSpace(t[|t| - 2..])
    requires |t| >= 3 ==> !IsSpace(t[|t| - 3..])
    ensures TrailingSpace(t) == 0
  {
  }

  lemma TrimLeftStays(s: string)
    requires LeadingSpace(s) == 0
    ensures TrimLeft(s) == s
  {
  }

  lemma TrimRightStays(s: string)
    requires TrailingSpace(s) == 0
    ensures TrimRight(s) == s
  {
  }

  lemma TrimNothing(parts: seq<string>)
    requires Spaces(parts)
    ensures TrimSpace(Concat(parts)) == ""
  {
    TrimLeftOf(parts, "");
    TrimLeftStays("");
    TrimRightStays("");
    assert Concat(parts) + "" == Concat(parts);
  }

  lemma TrimSome(before: seq<string>, s: string, after: seq<string>)
    requires Spaces(before) && Spaces(after) && Trimmed(s) && s != ""
    ensures TrimSpace(Concat(before) + (s + Concat(after))) == s
  {
    var rest := s + Concat(after);
    TrimLeftOf(before, rest);
    LeadingKept(s, after);
    TrimLeftStays(rest);
    TrimRightOf(s, after);
    TrimRightStays(s);
  }

  lemma Regroup(a: string, b: string, c: string)
    ensures a + b + c == a + (b + c)
  {
  }

  /** TrimSpace takes away the white space at both ends and nothing else ... */
  lemma TrimOf(before: seq<string>, s: string, after: seq<string>)
    requires Spaces(before) && Spaces(after) && Trimmed(s)
    ensures TrimSpace(Concat(before) + s + Concat(after)) == s
  {
    Regroup(Concat(before), s, Concat(after));
    if s == "" {
      ConcatBoth(before, after);
      assert "" + Concat(after) == Concat(after);
      TrimNothing(before + after);
    } else {
      TrimSome(before, s, after);
    }
  }

  lemma {:induction false} ConcatBoth(a: seq<string>, b: seq<string>)
    ensures Concat(a + b) == Concat(a) + Concat(b)
  {
    if a == [] {
      assert a + b == b;
    } else {
      ConcatBoth(a[1..], b);
      assert (a + b)[1..] == a[1..] + b;
      assert a[0] + (Concat(a[1..]) + Concat(b)) == a[0] + Concat(a[1..]) + Concat(b);
    }
  }

  lemma TakeLeading(s: string, n: nat, rest: seq<string>)
    requires n == LeadingSpace(s) && n > 0 && Spaces(rest) && s[n..] == Concat(rest) + TrimLeft(s[n..])
    ensures Spaces([s[..n]] + rest) && s == Concat([s[..n]] + rest) + TrimLeft(s) && TrimLeft(s) == TrimLeft(s[n..])
  {
    var before := [s[..n]] + rest;
    assert before[1..] == rest;
    assert s == s[..n] + s[n..];
    Regroup(s[..n], Concat(rest), TrimLeft(s));
  }

  lemma {:induction false} LeftParts(s: string) returns (before: seq<string>)
    ensures Spaces(before) && s == Concat(before) + TrimLeft(s) && LeadingSpace(TrimLeft(s)) == 0
    decreases |s|
  {
    var n := LeadingSpace(s);
    if n == 0 {
      before := [];
      TrimLeftStays(s);
      assert "" + s == s;
    } else {
      var rest := LeftParts(s[n..]);
      TakeLeading(s, n, rest);
      before := [s[..n]] + rest;
    }
  }

  lemma TakeTrailing(s: string, n: nat, rest: seq<string>)
    requires n == TrailingSpace(s) && n > 0 && Spaces(rest) && s[..|s| - n] == TrimRight(s[..|s| - n]) + Concat(rest)
    ensures var after := rest + [s[|s| - n..]];
            Spaces(after) && s == TrimRight(s) + Concat(after) && TrimRight(s) == TrimRight(s[..|s| - n])
  {
    var last := s[|s| - n..];
    ConcatBoth(rest, [last]);
    assert [last][1..] == [] && Concat([last]) == last + "" == last;
    assert s == s[..|s| - n] + last;
    Regroup(TrimRight(s), Concat(rest), last);
  }

  lemma {:induction false} RightParts(s: string) returns (after: seq<string>)
    ensures Spaces(after) && s == TrimRight(s) + Concat(after) && TrailingSpace(TrimRight(s)) == 0
    ensures TrimRight(s) <= s
    decreases |s|
  {
    var n := TrailingSpace(s);
    if n == 0 {
      after := [];
      TrimRightStays(s);
      assert s + "" == s;
    } else {
      var rest := RightParts(s[..|s| - n]);
      TakeTrailing(s, n, rest);
      after := rest + [s[|s| - n..]];
    }
  }

  lemma PrefixLeads(r: string, t: string)
    requires r <= t && LeadingSpace(t) == 0
    ensures LeadingSpace(r) == 0
  {
    assert |r| >= 1 ==> r[..1] == t[..1];
    assert |r| >= 2 ==> r[..2] == t[..2];
    assert |r| >= 3 ==> r[..3] == t[..3];
  }

  /** ... and all of it. */
  lemma TrimParts(s: string) returns (before: seq<string>, after: seq<string>)
    ensures Spaces(before) && Spaces(after) && Trimmed(TrimSpace(s))
    ensures s == Concat(before) + TrimSpace(s) + Concat(after)
  {
    before := LeftParts(s);
    var t := TrimLeft(s);
    after := RightParts(t);
    PrefixLeads(TrimRight(t), t);
    Regroup(Concat(before), TrimRight(t), Concat(after));
  }

  // ------------------------------------------------------------ the payload of a line

  /** An event line: white space, "data:", white space, the data, white space. */
  ghost predicate EventLine(line: string, data: string) {
    exists before, gap, after :: Spaces(before) && Spaces(gap) && Spaces(after)
                                 && line == EventText(before, gap, data, after)
  }

  function EventText(before: seq<string>, gap: seq<string>, data: string, after: seq<string>): string {
    Concat(before) + ("data:" + (Concat(gap) + data)) + Concat(after)
  }

  lemma DataLeads(rest: string)
    ensures LeadingSpace("data:" + rest) == 0
  {
    var t := "data:" + rest;
    assert t[..1] == "d" && t[..2] == "da" && t[..3] == "dat";
  }

  lemma EventTrims(before: seq<string>, gap: seq<string>, data: string, after: seq<string>)
    requires Spaces(before) && Spaces(gap) && Spaces(after) && Trimmed(data) && data != ""
    ensures TrimSpace(EventText(before, gap, data, after)) == "data:" + (Concat(gap) + data)
  {
    var head := "data:" + Concat(gap);
    EndsWholeSpaces("data:", gap);
    TrailingKept(head, data);
    Regroup("data:", Concat(gap), data);
    DataLeads(Concat(gap) + data);
    TrimOf(before, "data:" + (Concat(gap) + data), after);
  }

  lemma PayloadOfTrimmed(line: string, t: string, rest: string, carries: string -> bool)
    requires t == TrimSpace(line) && t == "data:" + rest
    ensures var data := TrimSpace(rest);
            Payload(line, carries) == if data == "" || data == "[DONE]" || !carries(data) then None else Some(data)
  {
    assert t[5..] == rest;
  }

  lemma TrimGap(gap: seq<string>, data: string)
    requires Spaces(gap) && Trimmed(data)
    ensures TrimSpace(Concat(gap) + data) == data
  {
    TrimOf(gap, data, []);
    assert Concat(gap) + data + "" == Concat(gap) + data;
  }

  lemma PayloadIs(line: string, t: string, carries: string -> bool, data: string)
    requires t == TrimSpace(line) && Payload(line, carries) == Some(data)
    ensures "data:" <= t && data == TrimSpace(t[5..]) && data != "" && data != "[DONE]" && carries(data)
  {
  }

  lemma GapOf(rest: string, data: string) returns (gap: seq<string>)
    requires data == TrimSpace(rest) && TrailingSpace("data:" + rest) == 0
    ensures Spaces(gap) && rest == Concat(gap) + data && Trimmed(data)
  {
    var end;
    gap, end := TrimParts(rest);
    TrimmedEnd(Concat(gap) + data, end, "data:");
    assert Concat(gap) + data + "" == Concat(gap) + data;
  }

  lemma PayloadHasData(line: string, carries: string -> bool, data: string)
    requires Payload(line, carries) == Some(data)
    ensures EventLine(line, data) && Trimmed(data) && data != "" && data != "[DONE]" && carries(data)
  {
    var t := TrimSpace(line);
    PayloadIs(line, t, carries, data);
    var before, after := TrimParts(line);
    var rest := t[5..];
    assert t == "data:" + rest;
    var gap := GapOf(rest, data);
    EventFromParts(line, before, t, gap, data, after);
  }

  lemma EventFromParts(line: string, before: seq<string>, t: string, gap: seq<string>, data: string, after: seq<string>)
    requires line == Concat(before) + t + Concat(after) && t == "data:" + (Concat(gap) + data)
    requires Spaces(before) && Spaces(gap) && Spaces(after)
    ensures EventLine(line, data)
  {
    assert line == EventText(before, gap, data, after);
  }

  /** The payload of a line is the data of an event line that is not empty, not the end mark, and
      carries something; every other line has none. */
  lemma PayloadIff(line: string, carries: string -> bool, data: string)
    ensures Payload(line, carries) == Some(data) <==>
              EventLine(line, data) && Trimmed(data) && data != "" && data != "[DONE]" && carries(data)
  {
    if Payload(line, carries) == Some(data) {
      PayloadHasData(line, carries, data);
    } else if EventLine(line, data) && Trimmed(data) && data != "" {
      var before, gap, after :| Spaces(before) && Spaces(gap) && Spaces(after) && line == EventText(before, gap, data, after);
      EventTrims(before, gap, data, after);
      TrimGap(gap, data);
      PayloadOfTrimmed(line, TrimSpace(line), Concat(gap) + data, carries);
    }
  }

  lemma ConcatOne(part: string)
    ensures Concat([part]) == part
  {
    assert [part][1..] == [] && part + "" == part;
  }

  lemma LastPart(s: string, end: seq<string>)
    requires end != []
    ensures s + Concat(end) == s + Concat(end[..|end| - 1]) + end[|end| - 1]
  {
    var init, last := end[..|end| - 1], end[|end| - 1];
    assert end == init + [last];
    ConcatBoth(init, [last]);
    ConcatOne(last);
    Regroup(s, Concat(init), last);
  }

  /** A text without white space at its end has none behind its last part. */
  lemma TrimmedEnd(s: string, end: seq<string>, head: string)
    requires Spaces(end) && TrailingSpace(head + (s + Concat(end))) == 0
    ensures end == []
  {
    if end != [] {
      var last := end[|end| - 1];
      Regroup(head, s, Concat(end));
      LastPart(head + s, end);
      TrailingOf(head + s + Concat(end[..|end| - 1]), last);
      SpaceShape(last);
    }
  }
}
