/** Building a message that mentions people: the spans announced beside the text are counted in UTF-16
    code units of the finished text. Text is a sequence of Unicode scalar values. */
module Mentions {
  datatype Mentionee = Mentionee(start: nat, end: nat, mid: string)

  /** The UTF-16 form of one scalar value: one unit, or a surrogate pair. */
  function Units(c: char): (u: seq<int>)
    ensures 1 <= |u| <= 2
  {
    var v := c as int;
    if v < 0x10000 then [v] else [0xD800 + (v - 0x10000) / 0x400, 0xDC00 + (v - 0x10000) % 0x400]
  }

  function Utf16(text: string): seq<int> {
    if text == [] then [] else Units(text[0]) + Utf16(text[1..])
  }

  /** A character beyond the basic plane becomes a high and a low surrogate that hold its ten upper and ten
      lower bits (section 2.1 of RFC 2781). */
  lemma UnitsDecode(c: char)
    ensures var u, v := Units(c), c as int;
      if v < 0x10000 then u == [v]
      else |u| == 2 && 0xD800 <= u[0] < 0xDC00 && 0xDC00 <= u[1] < 0xE000
           && v == 0x10000 + (u[0] - 0xD800) * 0x400 + (u[1] - 0xDC00)
  {}

  /** The text with a line for one more mention. */
  function Line(text: string, name: string, suffix: string): string {
    text + "\n" + ("@" + name) + (if suffix != "" then " " + suffix else "")
  }

  function SuffixOf(suffixes: seq<string>, k: nat): string { if k < |suffixes| then suffixes[k] else "" }

  /** What is sent: the heading and a line for each mention. */
  function Composed(heading: string, names: seq<string>, suffixes: seq<string>, count: nat): string
    requires count <= |names|
  {
    if count == 0 then heading
    else Line(Composed(heading, names, suffixes, count - 1), names[count - 1], SuffixOf(suffixes, count - 1))
  }

  /** The span of the tag in the next line. */
  function Span(text: string, name: string, mid: string): Mentionee {
    var start := |Utf16(text + "\n")|;
    Mentionee(start, start + |Utf16("@" + name)|, mid)
  }

  lemma {:induction false} Utf16Append(a: string, b: string)
    ensures Utf16(a + b) == Utf16(a) + Utf16(b)
  {
    hide Units;
    if a == [] {
      assert a + b == b;
    } else {
      assert (a + b)[1..] == a[1..] + b;
      Utf16Append(a[1..], b);
    }
  }

  /** What stands between two positions of the encoded text. */
  predicate Covers(text: string, m: Mentionee, tag: string) {
    m.start <= m.end <= |Utf16(text)| && Utf16(text)[m.start..m.end] == Utf16(tag)
  }

  lemma CoversGrows(text: string, more: string, m: Mentionee, tag: string)
    requires Covers(text, m, tag)
    ensures Covers(text + more, m, tag)
  {
    hide Utf16;
    Utf16Append(text, more);
    assert Utf16(text + more)[m.start..m.end] == Utf16(text)[m.start..m.end];
  }

  lemma CoversLabel(text: string, tag: string, mid: string)
    ensures Covers(text + tag, Mentionee(|Utf16(text)|, |Utf16(text)| + |Utf16(tag)|, mid), tag)
  {
    hide Utf16;
    Utf16Append(text, tag);
  }

  /** The announced spans lie in order and apart within the text, each the encoded tag of its name. */
  ghost predicate Announced(text: string, mentionees: seq<Mentionee>, names: seq<string>, mids: seq<string>) {
    && |mentionees| <= |names| && |mentionees| <= |mids|
    && (forall i | 0 <= i < |mentionees| ::
          && mentionees[i].mid == mids[i] && mentionees[i].end <= |Utf16(text)|
          && Covers(text, mentionees[i], "@" + names[i]))
    && (forall i, j | 0 <= i < j < |mentionees| :: mentionees[i].end < mentionees[j].start)
  }

  lemma AnnouncedGrows(text: string, more: string, mentionees: seq<Mentionee>, names: seq<string>, mids: seq<string>)
    requires Announced(text, mentionees, names, mids)
    ensures Announced(text + more, mentionees, names, mids) && text <= text + more
    ensures more != "" ==> forall i | 0 <= i < |mentionees| :: mentionees[i].end < |Utf16(text + more)|
  {
    hide Utf16, Covers;
    Utf16Append(text, more);
    assert more != "" ==> |Utf16(more)| > 0 by { NoEmptyUtf16(more); }
    forall i | 0 <= i < |mentionees| ensures Covers(text + more, mentionees[i], "@" + names[i]) {
      CoversGrows(text, more, mentionees[i], "@" + names[i]);
    }
  }

  lemma NoEmptyUtf16(text: string)
    ensures |Utf16(text)| >= |text|
  {
  }

  lemma OneMore(
      text: string, mentionees: seq<Mentionee>, m: Mentionee, names: seq<string>, mids: seq<string>)
    requires Announced(text, mentionees, names, mids) && |mentionees| < |names| && |mentionees| < |mids|
    requires m.mid == mids[|mentionees|] && m.end <= |Utf16(text)| && Covers(text, m, "@" + names[|mentionees|])
    requires forall i | 0 <= i < |mentionees| :: mentionees[i].end < m.start
    ensures Announced(text, mentionees + [m], names, mids)
  {
    hide Utf16, Covers;
    var next := mentionees + [m];
    assert forall i | 0 <= i < |mentionees| :: next[i] == mentionees[i];
    assert next[|mentionees|] == m;
  }

  lemma TagAnnounced(text: string, tag: string, mentionees: seq<Mentionee>, names: seq<string>, mids: seq<string>)
    requires Announced(text, mentionees, names, mids) && |mentionees| < |names| && |mentionees| < |mids|
    requires tag == "@" + names[|mentionees|]
    requires forall i | 0 <= i < |mentionees| :: mentionees[i].end < |Utf16(text)|
    ensures Announced(text + tag,
      mentionees + [Mentionee(|Utf16(text)|, |Utf16(text)| + |Utf16(tag)|, mids[|mentionees|])], names, mids)
  {
    hide Utf16, Covers, Announced;
    AnnouncedGrows(text, tag, mentionees, names, mids);
    Utf16Append(text, tag);
    CoversLabel(text, tag, mids[|mentionees|]);
    var m := Mentionee(|Utf16(text)|, |Utf16(text)| + |Utf16(tag)|, mids[|mentionees|]);
    OneMore(text + tag, mentionees, m, names, mids);
  }

  /** One line, and the span of its tag. */
  method AddLine(text: string, name: string, mid: string, suffix: string) returns (longer: string, m: Mentionee)
    ensures longer == Line(text, name, suffix) && m == Span(text, name, mid)
  {
    hide Utf16;
    longer := text + "\n";
    var start := |Utf16(longer)|;
    var tag := "@" + name;
    longer := longer + tag;
    m := Mentionee(start, start + |Utf16(tag)|, mid);
    if suffix != "" {
      longer := longer + (" " + suffix);
    } else {
      assert longer + "" == longer;
    }
  }

  /** Every announced span is exactly the encoded `@name` in the finished text, in order and apart. */
  method SendMentions(heading: string, names: seq<string>, mids: seq<string>, suffixes: seq<string>)
    returns (ok: bool, text: string, mentionees: seq<Mentionee>)
    ensures ok <==> |names| == |mids| && mids != []
    ensures ok ==> |mentionees| == |mids| && Announced(text, mentionees, names, mids)
    ensures ok ==> text == Composed(heading, names, suffixes, |mids|)
  {
    text, mentionees := "", [];
    ok := |names| == |mids| && |mids| > 0;
    if !ok {
      return;
    }
    hide *;
    ComposedNone(heading, names, suffixes);
    text := heading;
    NobodyAnnounced(heading, names, mids);
    for index := 0 to |mids|
      invariant |mentionees| == index && Announced(text, mentionees, names, mids)
      invariant text == Composed(heading, names, suffixes, index)
    {
      NextLine(heading, names, mids, suffixes, text, mentionees);
      var m;
      text, m := AddLine(text, names[index], mids[index], SuffixOf(suffixes, index));
      mentionees := mentionees + [m];
    }
  }

  /** One more line: the spans announced so far still stand, and the new one covers its tag. */
  lemma LineAnnounced(
      text: string, tag: string, suffix: string, mentionees: seq<Mentionee>, names: seq<string>, mids: seq<string>)
    requires Announced(text, mentionees, names, mids) && |mentionees| < |names| && |mentionees| < |mids|
    requires tag == "@" + names[|mentionees|]
    ensures var line, start := text + "\n", |Utf16(text + "\n")|;
            && text <= line + tag + suffix
            && Announced(line + tag + suffix,
                 mentionees + [Mentionee(start, start + |Utf16(tag)|, mids[|mentionees|])], names, mids)
  {
    hide Utf16, Announced;
    var line, start := text + "\n", |Utf16(text + "\n")|;
    AnnouncedGrows(text, "\n", mentionees, names, mids);
    TagAnnounced(line, tag, mentionees, names, mids);
    var m := Mentionee(start, start + |Utf16(tag)|, mids[|mentionees|]);
    AnnouncedGrows(line + tag, suffix, mentionees + [m], names, mids);
  }

  lemma ComposedNone(heading: string, names: seq<string>, suffixes: seq<string>)
    ensures Composed(heading, names, suffixes, 0) == heading
  {}

  lemma NextLine(
      heading: string, names: seq<string>, mids: seq<string>, suffixes: seq<string>, text: string,
      mentionees: seq<Mentionee>)
    requires Announced(text, mentionees, names, mids) && |mentionees| < |names| && |mentionees| < |mids|
    requires text == Composed(heading, names, suffixes, |mentionees|)
    ensures var k := |mentionees|;
            var longer := Line(text, names[k], SuffixOf(suffixes, k));
            && longer == Composed(heading, names, suffixes, k + 1)
            && Announced(longer, mentionees + [Span(text, names[k], mids[k])], names, mids)
  {
    hide Utf16, Announced;
    var k := |mentionees|;
    var s := SuffixOf(suffixes, k);
    LineAnnounced(text, "@" + names[k], if s != "" then " " + s else "", mentionees, names, mids);
  }

  lemma NobodyAnnounced(text: string, names: seq<string>, mids: seq<string>)
    ensures Announced(text, [], names, mids)
  {
  }
}
