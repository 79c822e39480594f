/** Checksum files: one line per asset, in either of the two customary styles. */
module Checksum {
  import opened Model
  import opened Text

  // ---------- fields and lines ----------

  function TokenLength(s: string): (n: nat)
    ensures n <= |s| && (s != [] && !IsSpace(s[0]) ==> n > 0)
  {
    if s == [] || IsSpace(s[0]) then 0 else 1 + TokenLength(s[1..])
  }

  /** The maximal runs of characters other than white space. */
  function Fields(s: string): seq<string>
    decreases |s|
  {
    if s == [] then []
    else if IsSpace(s[0]) then Fields(s[1..])
    else [s[..TokenLength(s)]] + Fields(s[TokenLength(s)..])
  }

  function Lines(s: string): (lines: seq<string>)
    ensures lines != []
  {
    if s == [] then [""]
    else if s[0] == '\n' then [""] + Lines(s[1..])
    else [[s[0]] + Lines(s[1..])[0]] + Lines(s[1..])[1..]
  }

  // ---------- the parser ----------

  function TaggedPrefix(asset: string): string {
    "SHA256 (" + asset + ") = "
  }

  function LineHash(line: string, asset: string): Option<string> {
    var text := TrimSpace(line);
    var fields := Fields(text);
    if |fields| >= 2 && fields[|fields| - 1] == asset then Some(fields[0])
    else if TaggedPrefix(asset) <= text then Some(TrimSpace(text[|TaggedPrefix(asset)|..]))
    else None
  }

  function FirstHash(lines: seq<string>, asset: string): string {
    if lines == [] then ""
    else if LineHash(lines[0], asset).Some? then LineHash(lines[0], asset).value
    else FirstHash(lines[1..], asset)
  }

  method ParseChecksum(data: string, asset: string) returns (hash: string)
    ensures hash == FirstHash(Lines(data), asset)
  {
    var lines := Lines(data);
    for i := 0 to |lines|
      invariant FirstHash(lines[i..], asset) == FirstHash(lines, asset)
    {
      assert lines[i..][1..] == lines[i + 1..];
      var text := TrimSpace(lines[i]);
      var fields := Fields(text);
      if |fields| >= 2 && fields[|fields| - 1] == asset {
        return fields[0];
      }
      var prefix := TaggedPrefix(asset);
      if prefix <= text {
        return TrimSpace(text[|prefix|..]);
      }
    }
    return "";
  }

  // ---------- the empty answer ----------

  lemma {:induction false} FieldsNonEmpty(s: string)
    ensures forall f | f in Fields(s) :: f != []
    decreases |s|
  {
    if s != [] {
      if IsSpace(s[0]) {
        FieldsNonEmpty(s[1..]);
      } else {
        FieldsNonEmpty(s[TokenLength(s)..]);
      }
    }
  }

  lemma LineHashNonEmpty(line: string, asset: string)
    requires LineHash(line, asset).Some?
    ensures LineHash(line, asset).value != ""
  {
    var text, n := TrimSpace(line), |TaggedPrefix(asset)|;
    var fields := Fields(text);
    FieldsNonEmpty(text);
    TrimRightEnds(TrimLeft(line));
    if |fields| >= 2 && fields[|fields| - 1] == asset {
      assert fields[0] in fields;
    } else {
      assert TaggedPrefix(asset)[n - 1] == ' ' == text[n - 1];
      assert n < |text|;
      TrimLeftKeeps(text[n..]);
    }
  }

  /** The empty answer means, for every file and asset, that no line names the asset. */
  lemma {:induction false} EmptyIff(lines: seq<string>, asset: string)
    ensures FirstHash(lines, asset) == "" <==> forall line | line in lines :: LineHash(line, asset).None?
  {
    if lines != [] {
      assert lines == [lines[0]] + lines[1..];
      EmptyIff(lines[1..], asset);
      if LineHash(lines[0], asset).Some? {
        LineHashNonEmpty(lines[0], asset);
      }
    }
  }

  // ---------- rendered lists ----------

  /** A checksum line is either the hash, some space and the name, or the tagged style. */
  datatype Entry = Plain(hash: string, space: string, name: string) | Tagged(hash: string, name: string)

  function RenderLine(e: Entry): string {
    match e
    case Plain(hash, space, name) => hash + space + name
    case Tagged(hash, name) => TaggedPrefix(name) + hash
  }

  function Render(entries: seq<Entry>): string {
    if entries == [] then "" else RenderLine(entries[0]) + "\n" + Render(entries[1..])
  }

  function HashOf(entries: seq<Entry>, asset: string): string {
    if entries == [] then ""
    else if entries[0].name == asset then entries[0].hash
    else HashOf(entries[1..], asset)
  }

  predicate IsToken(s: string) {
    s != [] && forall c | c in s :: !IsSpace(c)
  }

  predicate IsGap(s: string) {
    s != [] && forall c | c in s :: IsSpace(c) && c != '\n'
  }

  predicate WellFormed(e: Entry) {
    IsToken(e.hash) && IsToken(e.name) && (e.Plain? ==> IsGap(e.space))
  }

  lemma {:induction false} TokenLengthIs(t: string, rest: string)
    requires (forall c | c in t :: !IsSpace(c)) && (rest == [] || IsSpace(rest[0]))
    ensures TokenLength(t + rest) == |t|
  {
    if t == [] {
      assert t + rest == rest;
    } else {
      assert (t + rest)[1..] == t[1..] + rest;
      TokenLengthIs(t[1..], rest);
    }
  }

  lemma FieldsToken(t: string, rest: string)
    requires IsToken(t) && (rest == [] || IsSpace(rest[0]))
    ensures Fields(t + rest) == [t] + Fields(rest)
  {
    TokenLengthIs(t, rest);
    assert (t + rest)[0] == t[0] && t[0] in t;
    assert (t + rest)[..|t|] == t && (t + rest)[|t|..] == rest;
  }

  lemma {:induction false} FieldsGap(gap: string, rest: string)
    requires forall c | c in gap :: IsSpace(c)
    ensures Fields(gap + rest) == Fields(rest)
  {
    if gap == [] {
      assert gap + rest == rest;
    } else {
      assert (gap + rest)[1..] == gap[1..] + rest;
      FieldsGap(gap[1..], rest);
    }
  }

  lemma FieldsOfPair(t: string, gap: string, rest: string)
    requires IsToken(t) && IsGap(gap)
    ensures Fields(t + gap + rest) == [t] + Fields(rest)
  {
    assert t + gap + rest == t + (gap + rest);
    assert (gap + rest)[0] == gap[0] && gap[0] in gap;
    FieldsToken(t, gap + rest);
    FieldsGap(gap, rest);
  }

  lemma FieldsOfToken(t: string)
    requires IsToken(t)
    ensures Fields(t) == [t]
  {
    assert t + [] == t;
    FieldsToken(t, []);
  }

  lemma PlainIsNotTagged(e: Entry, asset: string)
    requires e.Plain? && WellFormed(e) && IsToken(asset)
    ensures !(TaggedPrefix(asset) <= RenderLine(e))
  {
    var line, p := RenderLine(e), TaggedPrefix(asset);
    if p <= line {
      assert p[6] == ' ' && p[7] == '(' && p[9 + |asset|] == ' ';
      assert line[6] == ' ' && line[7] == '(' && line[9 + |asset|] == ' ';
      hide RenderLine, TaggedPrefix, WellFormed;
      SpaceInGap(e, 6);
      SpaceInGap(e, 7);
      SpaceInGap(e, 9 + |asset|);
    }
  }

  lemma PlainLine(e: Entry, asset: string)
    requires e.Plain? && WellFormed(e) && IsToken(asset)
    ensures LineHash(RenderLine(e), asset) == if e.name == asset then Some(e.hash) else None
  {
    var line := RenderLine(e);
    FieldsOfPair(e.hash, e.space, e.name);
    FieldsOfToken(e.name);
    assert line[0] == e.hash[0] && line[|line| - 1] == e.name[|e.name| - 1];
    TrimIdle(line);
    PlainIsNotTagged(e, asset);
    hide Fields, TaggedPrefix, TrimSpace;
  }

  lemma SpaceInGap(e: Entry, i: nat)
    requires e.Plain? && WellFormed(e) && i < |RenderLine(e)|
    ensures IsSpace(RenderLine(e)[i]) <==> |e.hash| <= i < |e.hash| + |e.space|
  {
    var line := RenderLine(e);
    if i < |e.hash| {
      assert line[i] == e.hash[i] && e.hash[i] in e.hash;
    } else if i < |e.hash| + |e.space| {
      assert line[i] == e.space[i - |e.hash|] && e.space[i - |e.hash|] in e.space;
    } else {
      var j := i - |e.hash| - |e.space|;
      assert line[i] == e.name[j] && e.name[j] in e.name;
    }
  }

  lemma TaggedSplits(hash: string, name: string)
    ensures TaggedPrefix(name) + hash == "SHA256" + " " + ("(" + name + ")" + " " + ("=" + " " + hash))
  {
  }

  lemma TaggedFields(hash: string, name: string)
    requires IsToken(hash) && IsToken(name)
    ensures Fields(TaggedPrefix(name) + hash) == ["SHA256", "(" + name + ")", "=", hash]
  {
    var named := "(" + name + ")";
    var line2 := "=" + " " + hash;
    var line1 := named + " " + line2;
    TaggedSplits(hash, name);
    hide Fields, TaggedPrefix;
    FieldsOfPair("SHA256", " ", line1);
    FieldsOfPair(named, " ", line2);
    FieldsOfPair("=", " ", hash);
    FieldsOfToken(hash);
  }

  lemma TaggedPrefixOf(name: string, asset: string, hash: string)
    requires IsToken(name) && IsToken(asset)
    ensures TaggedPrefix(asset) <= TaggedPrefix(name) + hash <==> name == asset
  {
    var p, text := TaggedPrefix(asset), TaggedPrefix(name) + hash;
    if p <= text {
      assert p[9 + |asset|] == ' ' == text[9 + |asset|];
      SpaceAfterName(name, hash, 9 + |asset|);
      assert p + [] == p && text[9 + |name|] == ' ';
      SpaceAfterName(asset, [], 9 + |name|);
      assert p[8..8 + |asset|] == asset && text[8..8 + |name|] == name;
    }
  }

  lemma SpaceAfterName(name: string, hash: string, i: nat)
    requires IsToken(name) && 7 <= i < |TaggedPrefix(name) + hash| && (TaggedPrefix(name) + hash)[i] == ' '
    ensures i >= 9 + |name|
  {
    var text := TaggedPrefix(name) + hash;
    assert text[7] == '(' && text[8 + |name|] == ')';
    assert forall j | 8 <= j < 8 + |name| :: text[j] == name[j - 8] && name[j - 8] in name;
  }

  /** A tagged line whose hash reads like the asset is taken for a plain line of the asset. */
  predicate IsConfusable(e: Entry, asset: string) {
    e.Tagged? && e.hash == asset
  }

  function EntryAnswer(e: Entry, asset: string): Option<string> {
    if IsConfusable(e, asset) then Some("SHA256")
    else if e.name == asset then Some(e.hash)
    else None
  }

  lemma TaggedRendered(e: Entry)
    requires e.Tagged? && IsToken(e.hash)
    ensures
      var p, line := TaggedPrefix(e.name), RenderLine(e);
      line == p + e.hash && TrimSpace(line) == line && line[|p|..] == e.hash && TrimSpace(e.hash) == e.hash
  {
    var p, line := TaggedPrefix(e.name), RenderLine(e);
    assert line[0] == 'S' && line[|line| - 1] == e.hash[|e.hash| - 1];
    assert e.hash[0] in e.hash && e.hash[|e.hash| - 1] in e.hash;
    TrimIdle(line);
    TrimIdle(e.hash);
    hide TaggedPrefix, TrimSpace;
  }

  lemma TaggedLine(e: Entry, asset: string)
    requires e.Tagged? && WellFormed(e) && IsToken(asset)
    ensures LineHash(RenderLine(e), asset) == EntryAnswer(e, asset)
  {
    TaggedRendered(e);
    hide RenderLine, TaggedPrefix, Fields, TrimSpace, IsToken;
    TaggedFields(e.hash, e.name);
    TaggedPrefixOf(e.name, asset, e.hash);
  }

  lemma {:induction false} LinesCons(line: string, rest: string)
    requires '\n' !in line
    ensures Lines(line + "\n" + rest) == [line] + Lines(rest)
  {
    var s := line + "\n" + rest;
    if line == [] {
      assert s[1..] == rest;
    } else {
      assert s[1..] == line[1..] + "\n" + rest && s[0] == line[0] && line[0] in line;
      assert [line[0]] + line[1..] == line;
      LinesCons(line[1..], rest);
    }
  }

  lemma OneLine(e: Entry)
    requires WellFormed(e)
    ensures '\n' !in RenderLine(e)
  {
  }

  /** What the first entry that names the asset, or is confusable, answers. */
  function AnswerOf(entries: seq<Entry>, asset: string): string {
    if entries == [] then ""
    else if EntryAnswer(entries[0], asset).Some? then EntryAnswer(entries[0], asset).value
    else AnswerOf(entries[1..], asset)
  }

  /** Every rendered list is answered by the first entry that names the asset or is confusable, and with the
      empty string exactly when there is no such entry. */
  lemma {:induction false} RenderedListsParse(entries: seq<Entry>, asset: string)
    requires IsToken(asset) && forall e | e in entries :: WellFormed(e)
    ensures FirstHash(Lines(Render(entries)), asset) == AnswerOf(entries, asset)
    ensures AnswerOf(entries, asset) == "" <==> forall e | e in entries :: e.name != asset && !IsConfusable(e, asset)
  {
    if entries == [] {
      assert Fields("") == [] && TrimSpace("") == "";
    } else {
      var e, lines := entries[0], Lines(Render(entries[1..]));
      assert entries == [e] + entries[1..];
      RenderedListsParse(entries[1..], asset);
      OneLine(e);
      LinesCons(RenderLine(e), Render(entries[1..]));
      assert ([RenderLine(e)] + lines)[1..] == lines;
      if e.Plain? {
        PlainLine(e, asset);
      } else {
        TaggedLine(e, asset);
      }
    }
  }

  /** A confusable entry stands before, or is, the first entry of the asset. */
  predicate Misled(entries: seq<Entry>, asset: string) {
    if entries == [] then false
    else if IsConfusable(entries[0], asset) then true
    else entries[0].name != asset && Misled(entries[1..], asset)
  }

  lemma {:induction false} MisledAnswer(entries: seq<Entry>, asset: string)
    ensures AnswerOf(entries, asset) == if Misled(entries, asset) then "SHA256" else HashOf(entries, asset)
  {
    if entries != [] {
      MisledAnswer(entries[1..], asset);
    }
  }

  /** The parser finds the hash of the first entry of the asset exactly when no confusable entry stands before
      it or is it, or the asset's hash happens to read "SHA256". */
  lemma RenderedListsFoundIff(entries: seq<Entry>, asset: string)
    requires IsToken(asset) && forall e | e in entries :: WellFormed(e)
    ensures FirstHash(Lines(Render(entries)), asset) == HashOf(entries, asset)
       <==> !Misled(entries, asset) || HashOf(entries, asset) == "SHA256"
  {
    RenderedListsParse(entries, asset);
    MisledAnswer(entries, asset);
  }

  /** Such lists exist: a tagged line whose hash reads like the asset, with whatever after it. */
  lemma HashLikeAsset(asset: string, name: string, rest: seq<Entry>)
    requires IsToken(asset) && IsToken(name) && forall e | e in rest :: WellFormed(e)
    ensures FirstHash(Lines(Render([Tagged(asset, name)] + rest)), asset) == "SHA256"
  {
    RenderedListsParse([Tagged(asset, name)] + rest, asset);
  }

  // ---------- lines of any shape ----------

  /** A last field, set off by white space, is a field of its own. */
  lemma {:induction false} FieldsAppend(s: string, gap: string, t: string)
    requires gap != [] && (forall c | c in gap :: IsSpace(c)) && IsToken(t)
    ensures Fields(s + gap + t) == Fields(s) + [t]
    decreases |s|
  {
    if s == [] {
      assert s + gap + t == gap + t;
      FieldsGap(gap, t);
      FieldsOfToken(t);
    } else if IsSpace(s[0]) {
      assert (s + gap + t)[0] == s[0] && (s + gap + t)[1..] == s[1..] + gap + t;
      FieldsAppend(s[1..], gap, t);
    } else {
      var rest := s[TokenLength(s)..];
      FirstWord(s, gap, t);
      hide TokenLength, Fields;
      FieldsAppend(rest, gap, t);
      assert [s[..TokenLength(s)]] + (Fields(rest) + [t]) == ([s[..TokenLength(s)]] + Fields(rest)) + [t];
    }
  }

  lemma FirstWord(s: string, gap: string, t: string)
    requires s != [] && !IsSpace(s[0]) && gap != [] && forall c | c in gap :: IsSpace(c)
    ensures
      var n := TokenLength(s);
      && 0 < n <= |s| && Fields(s) == [s[..n]] + Fields(s[n..])
      && Fields(s + gap + t) == [s[..n]] + Fields(s[n..] + gap + t)
  {
    var n := TokenLength(s);
    var word, after := s[..n], s[n..] + gap + t;
    TokenEnds(s);
    assert s + gap + t == word + after && s[0] == (s + gap + t)[0];
    assert after[0] == if n < |s| then s[n] else gap[0];
    assert gap[0] in gap;
    TokenLengthIs(word, after);
    assert (word + after)[..n] == word && (word + after)[n..] == after;
    hide TokenLength;
  }

  lemma {:induction false} TokenEnds(s: string)
    ensures forall c | c in s[..TokenLength(s)] :: !IsSpace(c)
    ensures TokenLength(s) < |s| ==> IsSpace(s[TokenLength(s)])
  {
    if s != [] && !IsSpace(s[0]) {
      TokenEnds(s[1..]);
      assert s[..TokenLength(s)] == [s[0]] + s[1..][..TokenLength(s[1..])];
    }
  }

  lemma {:induction false} TrimGap(gap: string, t: string)
    requires (forall c | c in gap :: IsSpace(c)) && IsToken(t)
    ensures TrimSpace(gap + t) == t
  {
    if gap == [] {
      assert gap + t == t;
      assert t[0] in t && t[|t| - 1] in t;
      TrimIdle(t);
    } else {
      assert gap[0] in gap && (gap + t)[1..] == gap[1..] + t;
      TrimGap(gap[1..], t);
    }
  }

  /** Of a line with any number of fields the last is the name and the first the hash, whatever stands between them;
      a name alone is not a line for it; and in the tagged style white space before the hash is dropped. */
  lemma LineLaw(hash: string, gap: string, between: string, gap': string, name: string)
    requires IsToken(hash) && IsToken(name) && IsGap(gap) && IsGap(gap')
    ensures LineHash(hash + gap + between + gap' + name, name) == Some(hash)
    ensures LineHash(name, name).None?
    ensures hash != name ==> LineHash("SHA256 (" + name + ") = " + gap + hash, name) == Some(hash)
  {
    WholeLine(hash, gap, between, gap', name);
    LoneName(name);
    if hash != name {
      TaggedGap(hash, gap, name);
    }
  }

  lemma WholeLine(hash: string, gap: string, between: string, gap': string, name: string)
    requires IsToken(hash) && IsToken(name) && IsGap(gap) && IsGap(gap')
    ensures LineHash(hash + gap + between + gap' + name, name) == Some(hash)
  {
    var line := hash + gap + between + gap' + name;
    assert line == hash + gap + (between + gap' + name);
    assert line[0] == hash[0] && hash[0] in hash && line[|line| - 1] == name[|name| - 1] && name[|name| - 1] in name;
    TrimIdle(line);
    hide TrimSpace, Fields, TaggedPrefix;
    FieldsOfPair(hash, gap, between + gap' + name);
    FieldsAppend(between, gap', name);
  }

  lemma LoneName(name: string)
    requires IsToken(name)
    ensures LineHash(name, name).None?
  {
    assert name[0] in name && name[|name| - 1] in name;
    TrimIdle(name);
    FieldsOfToken(name);
    assert |TaggedPrefix(name)| > |name|;
    hide TrimSpace, Fields, TaggedPrefix;
  }

  lemma TaggedGap(hash: string, gap: string, name: string)
    requires IsToken(hash) && IsToken(name) && IsGap(gap) && hash != name
    ensures LineHash("SHA256 (" + name + ") = " + gap + hash, name) == Some(hash)
  {
    hide *;
    var p := TaggedPrefix(name);
    TaggedPrefixStarts(name);
    GapIsSpace(gap);
    FramedByTokens(p, gap, hash);
    FieldsAppend(p, gap, hash);
    TrimGap(gap, hash);
    TaggedAnswer(p + gap + hash, name, Fields(p), hash, gap + hash);
  }

  lemma TaggedPrefixStarts(name: string)
    ensures TaggedPrefix(name) == "SHA256 (" + name + ") = "
    ensures TaggedPrefix(name) != [] && !IsSpace(TaggedPrefix(name)[0])
  {
  }

  lemma GapIsSpace(gap: string)
    requires IsGap(gap)
    ensures gap != [] && forall c | c in gap :: IsSpace(c)
  {
  }

  /** A text that begins and ends without white space is not trimmed. */
  lemma FramedByTokens(p: string, gap: string, t: string)
    requires p != [] && !IsSpace(p[0]) && IsToken(t)
    ensures TrimSpace(p + gap + t) == p + gap + t && p <= p + gap + t && (p + gap + t)[|p|..] == gap + t
  {
    var line := p + gap + t;
    assert line[0] == p[0] && line[|line| - 1] == t[|t| - 1] && t[|t| - 1] in t;
    TrimIdle(line);
    hide TrimSpace;
  }

  lemma TaggedAnswer(line: string, asset: string, before: seq<string>, last: string, rest: string)
    requires TrimSpace(line) == line && Fields(line) == before + [last] && last != asset
    requires TaggedPrefix(asset) <= line && line[|TaggedPrefix(asset)|..] == rest
    ensures LineHash(line, asset) == Some(TrimSpace(rest))
  {
    hide TrimSpace, Fields, TaggedPrefix;
  }

  /** So the customary two spaces or a tab separate hash and name, and a carriage return after the name is dropped. */
  lemma UsualLines(hash: string, name: string)
    requires IsToken(hash) && IsToken(name)
    ensures LineHash(hash + "  " + name, name) == Some(hash)
    ensures LineHash(hash + "\t" + name, name) == Some(hash)
    ensures LineHash(hash + "  " + name + "\r", name) == Some(hash)
  {
    hide *;
    UsualGap(hash, "  ", name);
    UsualGap(hash, "\t", name);
    FramedByTokens(hash, "  ", name);
    ReturnTrimmed(hash + "  " + name, name);
    SameTrimmed(hash + "  " + name + "\r", hash + "  " + name, name);
  }

  lemma UsualGap(hash: string, gap: string, name: string)
    requires IsToken(hash) && IsToken(name) && (gap == "  " || gap == "\t")
    ensures LineHash(hash + gap + name, name) == Some(hash) && hash != [] && !IsSpace(hash[0])
  {
    assert hash[0] in hash;
    PlainLine(Plain(hash, gap, name), name);
    hide LineHash;
  }

  lemma ReturnTrimmed(line: string, name: string)
    requires line != [] && TrimSpace(line) == line && !IsSpace(line[0])
    ensures TrimSpace(line + "\r") == line
  {
    assert TrimLeft(line) == line && TrimLeft(line + "\r") == line + "\r" && (line + "\r")[..|line|] == line;
    assert TrimRight(line + "\r") == TrimRight(line);
  }

  lemma SameTrimmed(a: string, b: string, asset: string)
    requires TrimSpace(a) == TrimSpace(b)
    ensures LineHash(a, asset) == LineHash(b, asset)
  {
    hide TrimSpace, Fields, TaggedPrefix;
  }
}
