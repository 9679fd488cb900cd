/** Every part of an IRC line as a client may write it: tags, prefix, command, parameters with any
    spacing, a trailing parameter and any line ending, and what is read from it. */
module IrcLines {
  import opened Common
  import opened IrcMessages

  // ---- Scrubbing, word by word ----

  lemma {:induction false} WordsPrefix(a: string, b: string, n: nat)
    requires n <= |a|
    ensures WordsAt(a + b, n) == WordsAt(a, n)
  {
    if n > 0 {
      WordsPrefix(a, b, n - 1);
    }
  }

  lemma {:induction false} WordsAfter(a: string, c: char, b: string, n: nat)
    requires n <= |b| && (IsWhite(c) || IsBreak(c))
    ensures WordsAt(a + [c] + b, |a| + 1 + n) == (Words(a) + WordsAt(b, n).0, WordsAt(b, n).1)
  {
    var s := a + [c] + b;
    if n == 0 {
      assert s == a + ([c] + b);
      WordsPrefix(a, [c] + b, |a|);
      assert s[|a|] == c && Words(a) + [] == Words(a);
    } else {
      WordsAfter(a, c, b, n - 1);
      assert s[|a| + n] == b[n - 1];
      var (done, current) := WordsAt(b, n - 1);
      assert Words(a) + done + [current] == Words(a) + (done + [current]);
    }
  }

  lemma {:induction false} JoinedParts(x: seq<string>, y: seq<string>, n: nat)
    requires 0 < n <= |y| && x != []
    ensures Joined(x + y, |x| + n) == Joined(x, |x|) + "_" + Joined(y, n)
  {
    JoinedFirst(x, y, |x|);
    if n > 1 {
      JoinedParts(x, y, n - 1);
      assert (x + y)[|x| + n - 1] == y[n - 1];
      var before := Joined(x, |x|) + "_" + Joined(y, n - 1);
      assert before + "_" + y[n - 1] == Joined(x, |x|) + "_" + (Joined(y, n - 1) + "_" + y[n - 1]);
    }
  }

  lemma {:induction false} JoinedFirst(x: seq<string>, y: seq<string>, n: nat)
    requires n <= |x|
    ensures Joined(x + y, n) == Joined(x, n)
  {
    if n > 1 {
      JoinedFirst(x, y, n - 1);
    }
  }

  /** A break between two texts becomes an underscore, or nothing if one of them has no word; a text
      without breaks stays as it is. So what is scrubbed is the words, in order, underscores between. */
  lemma ScrubExactly(a: string, c: char, b: string)
    requires IsWhite(c) || IsBreak(c)
    ensures NoWhite(a) && NoBreaks(a) ==> Scrub(a) == a
    ensures Scrub(a + [c] + b) ==
              if Words(a) == [] then Scrub(b) else if Words(b) == [] then Scrub(a) else Scrub(a) + "_" + Scrub(b)
    ensures Words(a + [c] + b) == Words(a) + Words(b)
  {
    WordsAfter(a, c, b, |b|);
    assert Words(a + [c] + b) == Words(a) + Words(b);
    if NoWhite(a) && NoBreaks(a) {
      ScrubKeepsClean(a);
    }
    if Words(a) == [] {
      assert Words(a) + Words(b) == Words(b);
    } else if Words(b) == [] {
      assert Words(a) + Words(b) == Words(a);
    } else {
      JoinedParts(Words(a), Words(b), |Words(b)|);
    }
  }

  lemma {:induction false} WordsMakeText(words: seq<string>, n: nat)
    requires 0 < n <= |words| && forall i :: 0 <= i < |words| ==> words[i] != ""
    ensures Joined(words, n) != "" && Joined(words, n)[0] == words[0][0]
  {
    if n > 1 {
      WordsMakeText(words, n - 1);
    }
  }

  /** A parameter before the last one is its scrubbed text; without any word it is a star, and before a
      colon it gets an underscore, so that it is never taken for the last one. */
  lemma MiddleExactly(s: string)
    ensures Words(s) == [] ==> MiddleParam(s) == "*"
    ensures Words(s) != [] ==> Words(s)[0] != "" && MiddleParam(s) == if Words(s)[0][0] == ':' then "_" + Scrub(s) else Scrub(s)
  {
    WordsAreClean(s, |s|);
    if Words(s) != [] {
      WordsMakeText(Words(s), |Words(s)|);
    }
  }

  /** A command is read in capitals: the same letters, none of them small, and nothing else changed. */
  lemma CommandInCapitals(s: string)
    ensures Lower(Upper(s)) == Lower(s)
    ensures forall i :: 0 <= i < |Upper(s)| ==> !('a' <= Upper(s)[i] <= 'z')
    ensures forall i :: 0 <= i < |s| && !('a' <= s[i] <= 'z') ==> Upper(s)[i] == s[i]
  {
    forall i | 0 <= i < |s| ensures LowerChar(UpperChar(s[i])) == LowerChar(s[i]) {
      LettersFold(UpperChar(s[i]), s[i]);
    }
  }

  function Kept(c: char): string { if IsBreak(c) then "" else [c] }

  lemma {:induction false} StripJoins(a: string, b: string)
    ensures StripLineBreaks(a + b) == StripLineBreaks(a) + StripLineBreaks(b)
  {
    var s := a + b;
    if a == "" {
      assert s == b;
    } else {
      var rest := a[1..];
      StripJoins(rest, b);
      assert s[0] == a[0] && s[1..] == rest + b;
      var x, y, z := Kept(a[0]), StripLineBreaks(rest), StripLineBreaks(b);
      assert x + (y + z) == x + y + z;
      assert StripLineBreaks(a) == x + y;
    }
  }

  lemma {:induction false} StripKeeps(a: string)
    requires NoBreaks(a)
    ensures StripLineBreaks(a) == a
  {
    if a != "" {
      assert !IsBreak(a[0]);
      StripKeeps(a[1..]);
      assert a == [a[0]] + a[1..];
    }
  }

  /** Line breaks are taken out of the last parameter, and nothing else. */
  lemma StripExactly(a: string, c: char, b: string)
    requires NoBreaks(a) && IsBreak(c)
    ensures StripLineBreaks(a + [c] + b) == a + StripLineBreaks(b)
    ensures StripLineBreaks(a) == a
  {
    StripKeeps(a);
    StripJoins(a + [c], b);
    StripJoins(a, [c]);
    assert StripLineBreaks([c]) == "" by { assert [c][1..] == ""; }
    assert a + "" == a;
  }

  // ---- Parameters ----

  function Spaces(n: nat): string { seq(n, _ => ' ') }

  lemma {:induction false} SpacesTrim(n: nat, rest: string)
    requires rest == "" || rest[0] != ' '
    ensures TrimSpaces(Spaces(n) + rest) == rest
  {
    var s := Spaces(n) + rest;
    if n == 0 {
      assert s == rest;
    } else {
      SpacesTrim(n - 1, rest);
      assert s[0] == ' ' && s[1..] == Spaces(n - 1) + rest;
    }
  }

  lemma {:induction false} WhiteTrims(n: nat, rest: string)
    requires rest != "" && !IsWhite(rest[0])
    ensures TrimStart(Spaces(n) + rest) == rest
  {
    var s := Spaces(n) + rest;
    if n == 0 {
      assert s == rest;
    } else {
      WhiteTrims(n - 1, rest);
      assert s[0] == ' ' && s[1..] == Spaces(n - 1) + rest;
    }
  }

  /** A word and the spaces after it. */
  datatype Part = Part(word: string, gap: nat)

  /** No space in it, and no colon before it. */
  predicate PlainWord(w: string) { w != "" && w[0] != ':' && forall i :: 0 <= i < |w| ==> w[i] != ' ' }

  /** There is a space after each word that something follows. */
  predicate Spaced(parts: seq<Part>, trailing: Option<string>) {
    forall i :: 0 <= i < |parts| ==> PlainWord(parts[i].word) && (i + 1 < |parts| || trailing.Some? ==> parts[i].gap > 0)
  }

  /** The parameters as written: the words, and the one that may hold spaces behind a colon. */
  function ParamText(parts: seq<Part>, trailing: Option<string>): string {
    if parts == [] then (if trailing.Some? then ":" + trailing.value else "")
    else parts[0].word + Spaces(parts[0].gap) + ParamText(parts[1..], trailing)
  }

  function WordsOf(parts: seq<Part>, trailing: Option<string>): seq<string> {
    if parts == [] then (if trailing.Some? then [trailing.value] else [])
    else [parts[0].word] + WordsOf(parts[1..], trailing)
  }

  lemma TextStarts(parts: seq<Part>, trailing: Option<string>)
    requires Spaced(parts, trailing)
    ensures ParamText(parts, trailing) == "" || ParamText(parts, trailing)[0] != ' '
  {
  }

  lemma {:induction false} ParamsAreRead(parts: seq<Part>, trailing: Option<string>)
    requires Spaced(parts, trailing)
    ensures ParamsOf(ParamText(parts, trailing)) == WordsOf(parts, trailing)
  {
    if parts == [] {
      if trailing.Some? {
        assert (":" + trailing.value)[1..] == trailing.value;
      }
    } else {
      var w, gap, rest := parts[0].word, parts[0].gap, ParamText(parts[1..], trailing);
      assert Spaced(parts[1..], trailing);
      ParamsAreRead(parts[1..], trailing);
      TextStarts(parts[1..], trailing);
      if gap == 0 {
        assert parts[1..] == [] && w + Spaces(0) + rest == w;
        SplitNowhere(w, ' ');
      } else {
        WordIsRead(w, gap, rest);
      }
    }
  }

  lemma WordIsRead(w: string, gap: nat, rest: string)
    requires PlainWord(w) && gap > 0 && (rest == "" || rest[0] != ' ')
    ensures ParamsOf(w + Spaces(gap) + rest) == [w] + ParamsOf(rest)
  {
    var more := Spaces(gap - 1) + rest;
    var text := w + [' '] + more;
    assert w + Spaces(gap) + rest == text;
    SplitAtFirst(w, ' ', more);
    SpacesTrim(gap - 1, rest);
    FirstIsRead(text, w, more);
  }

  lemma FirstIsRead(text: string, w: string, more: string)
    requires text != "" && text[0] != ':' && SplitOnce(text, ' ') == Some((w, more)) && w != ""
    ensures ParamsOf(text) == [w] + ParamsOf(TrimSpaces(more))
  {
  }

  // ---- Tags ----

  /** A key, and a value if there is one. */
  predicate PlainTag(t: (string, Option<string>)) {
    && (t.0 != "" || t.1.Some?)
    && (forall i :: 0 <= i < |t.0| ==> t.0[i] != ';' && t.0[i] != '=')
    && (t.1.Some? ==> forall i :: 0 <= i < |t.1.value| ==> t.1.value[i] != ';')
  }

  function TagText(t: (string, Option<string>)): string { if t.1.Some? then t.0 + "=" + t.1.value else t.0 }

  function TagsText(tags: seq<(string, Option<string>)>): string {
    if tags == [] then "" else if |tags| == 1 then TagText(tags[0]) else TagText(tags[0]) + ";" + TagsText(tags[1..])
  }

  lemma TagIsRead(t: (string, Option<string>))
    requires PlainTag(t)
    ensures OneTag(TagText(t)) == [t]
    ensures forall i :: 0 <= i < |TagText(t)| ==> TagText(t)[i] != ';'
  {
    if t.1.Some? {
      SplitAtFirst(t.0, '=', t.1.value);
      assert t.0 + "=" + t.1.value == t.0 + ['='] + t.1.value;
    } else {
      SplitNowhere(t.0, '=');
    }
  }

  /** Tags read back as the keys and values they were written from. */
  lemma {:induction false} TagsAreRead(tags: seq<(string, Option<string>)>)
    requires forall i :: 0 <= i < |tags| ==> PlainTag(tags[i])
    ensures TagsOf(TagsText(tags)) == tags
  {
    if tags == [] {
      SplitNowhere("", ';');
    } else {
      TagIsRead(tags[0]);
      if |tags| == 1 {
        SplitNowhere(TagText(tags[0]), ';');
      } else {
        TagsAreRead(tags[1..]);
        SplitAtFirst(TagText(tags[0]), ';', TagsText(tags[1..]));
        assert TagText(tags[0]) + ";" + TagsText(tags[1..]) == TagText(tags[0]) + [';'] + TagsText(tags[1..]);
        assert tags == [tags[0]] + tags[1..];
      }
    }
  }

  // ---- Whole lines ----

  predicate NoSpace(s: string) { forall i :: 0 <= i < |s| ==> s[i] != ' ' }

  predicate Ending(s: string) { forall i :: 0 <= i < |s| ==> s[i] == '\r' || s[i] == '\n' }

  /** Starts with neither white space nor a sign that something else comes first. */
  predicate PlainStart(s: string) { s != "" && !IsWhite(s[0]) && s[0] != '@' && s[0] != ':' }

  /** Does not end in what is taken off the end of a line. */
  predicate PlainEnd(s: string) { s != "" && s[|s| - 1] != '\r' && s[|s| - 1] != '\n' }

  lemma {:induction false} EndingTrims(s: string, ending: string)
    requires Ending(ending) && PlainEnd(s)
    ensures TrimEndBreaks(s + ending) == s
    decreases |ending|
  {
    if ending == "" {
      assert s + ending == s;
    } else {
      var n := |ending| - 1;
      EndingTrims(s, ending[..n]);
      assert (s + ending)[|s + ending| - 1] == ending[n] && (s + ending)[..|s + ending| - 1] == s + ending[..n];
    }
  }

  /** A command, and its parameters if it has any. */
  function Body(command: string, space: nat, parts: seq<Part>, trailing: Option<string>): string {
    command + Spaces(space) + ParamText(parts, trailing)
  }

  predicate PlainBody(command: string, space: nat, parts: seq<Part>, trailing: Option<string>) {
    && PlainStart(command) && NoSpace(command) && Spaced(parts, trailing)
    && (space == 0 ==> parts == [] && trailing.None?)
  }

  lemma BodyIsRead(tags: seq<(string, Option<string>)>, prefix: Option<string>, command: string, space: nat, parts: seq<Part>,
                   trailing: Option<string>)
    requires PlainBody(command, space, parts, trailing)
    ensures ParseCommand(tags, prefix, Body(command, space, parts, trailing))
         == Some(Message(tags, prefix, Upper(command), WordsOf(parts, trailing)))
  {
    var text := ParamText(parts, trailing);
    ParamsAreRead(parts, trailing);
    TextStarts(parts, trailing);
    if space == 0 {
      assert command + Spaces(0) + text == command;
      SplitNowhere(command, ' ');
    } else {
      assert command + Spaces(space) + text == command + [' '] + (Spaces(space - 1) + text);
      SplitAtFirst(command, ' ', Spaces(space - 1) + text);
      SpacesTrim(space - 1, text);
    }
  }

  lemma PrefixIsRead(tags: seq<(string, Option<string>)>, prefix: string, gap: nat, body: string)
    requires NoSpace(prefix) && gap > 0 && body != "" && !IsWhite(body[0])
    ensures ParsePrefix(tags, ":" + prefix + Spaces(gap) + body) == ParseCommand(tags, Some(prefix), body)
  {
    var s := ":" + prefix + Spaces(gap) + body;
    assert s[1..] == prefix + [' '] + (Spaces(gap - 1) + body);
    SplitAtFirst(prefix, ' ', Spaces(gap - 1) + body);
    WhiteTrims(gap - 1, body);
  }

  function PrefixText(prefix: Option<string>, gap: nat): string {
    if prefix.Some? then ":" + prefix.value + Spaces(gap) else ""
  }

  lemma PrefixedIsRead(tags: seq<(string, Option<string>)>, prefix: Option<string>, gap: nat, body: string)
    requires gap > 0 && PlainStart(body) && (prefix.Some? ==> NoSpace(prefix.value))
    ensures ParsePrefix(tags, PrefixText(prefix, gap) + body) == ParseCommand(tags, prefix, body)
  {
    if prefix.Some? {
      PrefixIsRead(tags, prefix.value, gap, body);
    } else {
      assert "" + body == body;
    }
  }

  lemma RestShape(prefix: Option<string>, gap: nat, body: string)
    requires PlainStart(body) && PlainEnd(body)
    ensures var rest := PrefixText(prefix, gap) + body;
            PlainEnd(rest) && rest[0] == (if prefix.Some? then ':' else body[0])
  {
  }

  lemma TaggedIsRead(tags: string, gap: nat, rest: string, ending: string)
    requires NoSpace(tags) && gap > 0 && Ending(ending) && PlainEnd(rest) && !IsWhite(rest[0])
    ensures Parse("@" + tags + Spaces(gap) + rest + ending) == ParsePrefix(TagsOf(tags), rest)
  {
    var line := "@" + tags + Spaces(gap) + rest;
    EndingTrims(line, ending);
    assert line[1..] == tags + [' '] + (Spaces(gap - 1) + rest);
    SplitAtFirst(tags, ' ', Spaces(gap - 1) + rest);
    WhiteTrims(gap - 1, rest);
    assert TrimStart(line) == line;
  }

  function TagPart(tags: Option<string>, gap: nat): string {
    if tags.Some? then "@" + tags.value + Spaces(gap) else ""
  }

  lemma TagPartIsRead(tags: Option<string>, gap: nat, rest: string, ending: string)
    requires (tags.Some? ==> NoSpace(tags.value)) && gap > 0 && Ending(ending)
    requires PlainEnd(rest) && !IsWhite(rest[0]) && rest[0] != '@'
    ensures Parse(TagPart(tags, gap) + rest + ending) == ParsePrefix(if tags.Some? then TagsOf(tags.value) else [], rest)
  {
    if tags.Some? {
      TaggedIsRead(tags.value, gap, rest, ending);
    } else {
      assert "" + rest == rest;
      EndingTrims(rest, ending);
    }
  }

  lemma BodyStarts(command: string, space: nat, parts: seq<Part>, trailing: Option<string>)
    requires PlainBody(command, space, parts, trailing)
    ensures PlainStart(Body(command, space, parts, trailing))
  {
  }

  /** However a line is spaced and ended: its tags, its prefix, its command in capitals, its words and
      its trailing parameter are what is read, each where it belongs. */
  lemma LineIsRead(tags: Option<string>, prefix: Option<string>, gap: nat, command: string, space: nat, parts: seq<Part>,
                   trailing: Option<string>, ending: string)
    requires gap > 0 && PlainBody(command, space, parts, trailing) && Ending(ending)
    requires (tags.Some? ==> NoSpace(tags.value)) && (prefix.Some? ==> NoSpace(prefix.value))
    requires PlainEnd(Body(command, space, parts, trailing))
    ensures Parse(TagPart(tags, gap) + (PrefixText(prefix, gap) + Body(command, space, parts, trailing)) + ending)
         == Some(Message(if tags.Some? then TagsOf(tags.value) else [], prefix, Upper(command), WordsOf(parts, trailing)))
  {
    var body := Body(command, space, parts, trailing);
    var t := if tags.Some? then TagsOf(tags.value) else [];
    BodyStarts(command, space, parts, trailing);
    BodyIsRead(t, prefix, command, space, parts, trailing);
    PrefixedIsRead(t, prefix, gap, body);
    RestShape(prefix, gap, body);
    TagPartIsRead(tags, gap, PrefixText(prefix, gap) + body, ending);
  }

  /** Nothing is read from a line without a command: an empty one, or tags or a prefix alone. */
  lemma NoCommand(s: string, ending: string)
    requires Ending(ending) && NoWhite(s)
    requires s == "" || s[0] == '@' || s[0] == ':'
    ensures Parse(s + ending) == None
  {
    if s == "" {
      assert s + ending == ending;
      OnlyEnding(ending);
      SplitNowhere("", ' ');
    } else {
      assert s[|s| - 1] != '\r' && s[|s| - 1] != '\n' by { assert !IsWhite(s[|s| - 1]); }
      EndingTrims(s, ending);
      SplitNowhere(s[1..], ' ');
    }
  }

  lemma {:induction false} OnlyEnding(ending: string)
    requires Ending(ending)
    ensures TrimEndBreaks(ending) == ""
    decreases |ending|
  {
    if ending != "" {
      OnlyEnding(ending[..|ending| - 1]);
    }
  }
}
