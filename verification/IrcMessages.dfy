/** IRC lines (section 2.3.1 of RFC 2812): parsing, printing, and the scrubbing that keeps a
    printed line one line with the same number of parameters. */
module IrcMessages {
  import opened Common

  datatype Message = Message(
    tags: seq<(string, Option<string>)>,
    prefix: Option<string>,
    command: string,
    params: seq<string>)

  // ---- Characters ----

  /** `char::is_whitespace`: the Unicode White_Space property. */
  predicate IsWhite(c: char) {
    var u := c as int;
    || 0x09 <= u <= 0x0D || u == 0x20 || u == 0x85 || u == 0xA0 || u == 0x1680
    || 0x2000 <= u <= 0x200A || u == 0x2028 || u == 0x2029 || u == 0x202F || u == 0x205F || u == 0x3000
  }

  predicate IsBreak(c: char) { c == '\r' || c == '\n' || c == '\0' }

  predicate NoWhite(s: string) { forall i :: 0 <= i < |s| ==> !IsWhite(s[i]) }

  predicate NoBreaks(s: string) { forall i :: 0 <= i < |s| ==> !IsBreak(s[i]) }

  function UpperChar(c: char): char {
    if 'a' <= c <= 'z' then (c as int - 32) as char else c
  }

  function Upper(s: string): string {
    seq(|s|, i requires 0 <= i < |s| => UpperChar(s[i]))
  }

  /** RFC 1459 casemapping: `{}|^` are the lower-case forms of `[]\~`. */
  function LowerChar(c: char): char {
    if 'A' <= c <= 'Z' then (c as int + 32) as char
    else if c == '[' then '{' else if c == ']' then '}' else if c == '\\' then '|' else if c == '~' then '^'
    else c
  }

  function Lower(s: string): string {
    seq(|s|, i requires 0 <= i < |s| => LowerChar(s[i]))
  }

  /** `u` is a letter and `l` its lower-case form. */
  predicate Cases(u: char, l: char) {
    ('A' <= u <= 'Z' && l as int == u as int + 32) || (u, l) in {('[', '{'), (']', '}'), ('\\', '|'), ('~', '^')}
  }

  /** The same character, or the two cases of one letter. */
  predicate SameLetter(a: char, b: char) {
    a == b || Cases(a, b) || Cases(b, a)
  }

  lemma LettersFold(a: char, b: char)
    ensures LowerChar(a) == LowerChar(b) <==> SameLetter(a, b)
  {
  }

  /** Two nicks are one exactly if they differ in nothing but case, letter by letter; and folding
      twice is folding once, so folded nicks can be compared as they are. */
  lemma FoldingIdentifies(a: string, b: string)
    ensures Lower(a) == Lower(b) <==> |a| == |b| && forall i :: 0 <= i < |a| ==> SameLetter(a[i], b[i])
    ensures Lower(Lower(a)) == Lower(a)
  {
    forall i | 0 <= i < |a| && i < |b| ensures LowerChar(a[i]) == LowerChar(b[i]) <==> SameLetter(a[i], b[i]) {
      LettersFold(a[i], b[i]);
    }
    if |a| == |b| {
      assert forall i :: 0 <= i < |a| ==> Lower(a)[i] == LowerChar(a[i]) && Lower(b)[i] == LowerChar(b[i]);
    }
  }

  // ---- Cutting strings ----

  function SplitOnce(s: string, c: char): (r: Option<(string, string)>)
    ensures r.Some? ==> |r.value.0| + |r.value.1| + 1 == |s|
  {
    if s == "" then None
    else if s[0] == c then Some(("", s[1..]))
    else match SplitOnce(s[1..], c)
      case None => None
      case Some((before, after)) => Some(([s[0]] + before, after))
  }

  function TrimStart(s: string): (r: string)
    ensures |r| <= |s|
  {
    if s != "" && IsWhite(s[0]) then TrimStart(s[1..]) else s
  }

  function TrimSpaces(s: string): (r: string)
    ensures |r| <= |s|
  {
    if s != "" && s[0] == ' ' then TrimSpaces(s[1..]) else s
  }

  function TrimEndBreaks(s: string): string {
    if s != "" && (s[|s| - 1] == '\r' || s[|s| - 1] == '\n') then TrimEndBreaks(s[..|s| - 1]) else s
  }

  // ---- Scrubbing ----

  /** `split_whitespace`, after line breaks and NULs became spaces: finished words, and the one
      being read, after `n` characters. */
  function WordsAt(s: string, n: nat): (seq<string>, string)
    requires n <= |s|
  {
    if n == 0 then ([], "")
    else
      var (done, current) := WordsAt(s, n - 1);
      if !IsWhite(s[n - 1]) && !IsBreak(s[n - 1]) then (done, current + [s[n - 1]])
      else if current == "" then (done, "")
      else (done + [current], "")
  }

  function Words(s: string): seq<string> {
    var (done, current) := WordsAt(s, |s|);
    if current == "" then done else done + [current]
  }

  /** The first `n` words, joined by underscores. */
  function Joined(words: seq<string>, n: nat): string
    requires n <= |words|
  {
    if n == 0 then "" else if n == 1 then words[0] else Joined(words, n - 1) + "_" + words[n - 1]
  }

  function Scrub(s: string): string { Joined(Words(s), |Words(s)|) }

  function MiddleParam(s: string): string {
    var cleaned := Scrub(s);
    if cleaned == "" then "*" else if cleaned[0] == ':' then "_" + cleaned else cleaned
  }

  function StripLineBreaks(s: string): string {
    if s == "" then "" else (if IsBreak(s[0]) then "" else [s[0]]) + StripLineBreaks(s[1..])
  }

  predicate CleanWord(w: string) { w != "" && NoWhite(w) && NoBreaks(w) }

  lemma {:induction false} WordsAreClean(s: string, n: nat)
    requires n <= |s|
    ensures var (done, current) := WordsAt(s, n);
            (forall i :: 0 <= i < |done| ==> CleanWord(done[i])) && NoWhite(current) && NoBreaks(current)
  {
    if n > 0 {
      WordsAreClean(s, n - 1);
    }
  }

  lemma {:induction false} JoinedClean(words: seq<string>, n: nat)
    requires n <= |words| && forall i :: 0 <= i < |words| ==> CleanWord(words[i])
    ensures NoWhite(Joined(words, n)) && NoBreaks(Joined(words, n))
  {
    if n > 1 {
      JoinedClean(words, n - 1);
    }
  }

  /** Scrubbed text has no whitespace and no line break. */
  lemma ScrubClean(s: string)
    ensures NoWhite(Scrub(s)) && NoBreaks(Scrub(s))
  {
    WordsAreClean(s, |s|);
    JoinedClean(Words(s), |Words(s)|);
  }

  lemma {:induction false} CleanIsOneWord(s: string, n: nat)
    requires n <= |s| && NoWhite(s) && NoBreaks(s)
    ensures WordsAt(s, n) == ([], s[..n])
  {
    if n > 0 {
      CleanIsOneWord(s, n - 1);
      assert s[..n] == s[..n - 1] + [s[n - 1]];
    }
  }

  /** Text that needs no scrubbing is left as it is. */
  lemma ScrubKeepsClean(s: string)
    requires NoWhite(s) && NoBreaks(s)
    ensures Scrub(s) == s
  {
    CleanIsOneWord(s, |s|);
    assert s[..|s|] == s;
  }

  lemma MiddleClean(s: string)
    ensures CleanWord(MiddleParam(s)) && MiddleParam(s)[0] != ':'
  {
    ScrubClean(s);
  }

  lemma {:induction false} StripClean(s: string)
    ensures NoBreaks(StripLineBreaks(s))
  {
    if s != "" {
      StripClean(s[1..]);
    }
  }

  // ---- Parsing ----

  function ParamsOf(r: string): seq<string>
    decreases |r|
  {
    if r == "" then []
    else if r[0] == ':' then [r[1..]]
    else match SplitOnce(r, ' ')
      case None => [r]
      case Some((p, rest)) => (if p == "" then [] else [p]) + ParamsOf(TrimSpaces(rest))
  }

  function TagOf(t: string): (string, Option<string>) {
    match SplitOnce(t, '=') case Some((k, v)) => (k, Some(v)) case None => (t, None)
  }

  function TagsOf(t: string): seq<(string, Option<string>)>
    decreases |t|
  {
    match SplitOnce(t, ';')
    case None => OneTag(t)
    case Some((tag, rest)) => OneTag(tag) + TagsOf(rest)
  }

  function OneTag(tag: string): seq<(string, Option<string>)> {
    if tag == "" then [] else [TagOf(tag)]
  }

  function ParseCommand(tags: seq<(string, Option<string>)>, prefix: Option<string>, rest: string): Option<Message> {
    var cut := SplitOnce(rest, ' ');
    var command := if cut.Some? then cut.value.0 else rest;
    if command == "" then None
    else Some(Message(tags, prefix, Upper(command), ParamsOf(TrimSpaces(if cut.Some? then cut.value.1 else ""))))
  }

  function ParsePrefix(tags: seq<(string, Option<string>)>, rest: string): Option<Message> {
    if rest != "" && rest[0] == ':' then
      match SplitOnce(rest[1..], ' ')
      case None => None
      case Some((prefix, more)) => ParseCommand(tags, Some(prefix), TrimStart(more))
    else ParseCommand(tags, None, rest)
  }

  function Parse(line: string): Option<Message> {
    var rest := TrimStart(TrimEndBreaks(line));
    if rest != "" && rest[0] == '@' then
      match SplitOnce(rest[1..], ' ')
      case None => None
      case Some((tags, more)) => ParsePrefix(TagsOf(tags), TrimStart(more))
    else ParsePrefix([], rest)
  }

  method ParseTags(text: string) returns (tags: seq<(string, Option<string>)>)
    ensures tags == TagsOf(text)
  {
    tags := [];
    var rest := text;
    while true
      invariant tags + TagsOf(rest) == TagsOf(text)
      decreases |rest|
    {
      var cut := SplitOnce(rest, ';');
      if cut.None? {
        tags := PushTag(tags, rest);
        return;
      }
      assert tags + (OneTag(cut.value.0) + TagsOf(cut.value.1)) == tags + OneTag(cut.value.0) + TagsOf(cut.value.1);
      tags := PushTag(tags, cut.value.0);
      rest := cut.value.1;
    }
  }

  method PushTag(tags: seq<(string, Option<string>)>, tag: string) returns (r: seq<(string, Option<string>)>)
    ensures r == tags + OneTag(tag)
  {
    r := tags;
    if tag != "" {
      var pair := SplitOnce(tag, '=');
      r := r + [if pair.Some? then (pair.value.0, Some(pair.value.1)) else (tag, None)];
    }
  }

  method ParseParams(text: string) returns (params: seq<string>)
    ensures params == ParamsOf(text)
  {
    params := [];
    var remainder := text;
    while remainder != ""
      invariant params + ParamsOf(remainder) == ParamsOf(text)
      decreases |remainder|
    {
      if remainder[0] == ':' {
        params := params + [remainder[1..]];
        return;
      }
      var cut := SplitOnce(remainder, ' ');
      if cut.None? {
        params := params + [remainder];
        return;
      }
      var (p, r) := cut.value;
      ghost var more := ParamsOf(TrimSpaces(r));
      ghost var before := params;
      if p != "" {
        params := params + [p];
      }
      assert params + more == before + ParamsOf(remainder);
      remainder := TrimSpaces(r);
    }
  }

  method ParseLine(line: string) returns (msg: Option<Message>)
    ensures msg == Parse(line)
  {
    var rest := TrimStart(TrimEndBreaks(line));
    var tags := [];
    if rest != "" && rest[0] == '@' {
      var cut := SplitOnce(rest[1..], ' ');
      if cut.None? {
        return None;
      }
      tags := ParseTags(cut.value.0);
      rest := TrimStart(cut.value.1);
    }
    var prefix := None;
    if rest != "" && rest[0] == ':' {
      var cut := SplitOnce(rest[1..], ' ');
      if cut.None? {
        return None;
      }
      prefix := Some(cut.value.0);
      rest := TrimStart(cut.value.1);
    }
    var cut := SplitOnce(rest, ' ');
    var command := if cut.Some? then cut.value.0 else rest;
    if command == "" {
      return None;
    }
    var params := ParseParams(TrimSpaces(if cut.Some? then cut.value.1 else ""));
    return Some(Message(tags, prefix, Upper(command), params));
  }

  // ---- Printing ----

  predicate NeedsColon(p: string) {
    p == "" || p[0] == ':' || exists i :: 0 <= i < |p| && IsWhite(p[i])
  }

  /** Parameter `i` as it is written, without the space before it. */
  function Item(params: seq<string>, i: nat): string
    requires i < |params|
  {
    if i + 1 < |params| then MiddleParam(params[i])
    else
      var p := StripLineBreaks(params[i]);
      if NeedsColon(p) then ":" + p else p
  }

  /** Parameters `i` and on, each with its space. */
  function Tail(params: seq<string>, i: nat): string
    requires i <= |params|
    decreases |params| - i
  {
    if i == |params| then "" else " " + Item(params, i) + Tail(params, i + 1)
  }

  function Head(m: Message): string {
    (if m.prefix.Some? then ":" + Scrub(m.prefix.value) + " " else "") + Scrub(m.command)
  }

  function Printed(m: Message): string { Head(m) + Tail(m.params, 0) }

  /** The first `i` parameters, each with its space. */
  function Front(params: seq<string>, i: nat): string
    requires i <= |params|
  {
    if i == 0 then "" else Front(params, i - 1) + " " + Item(params, i - 1)
  }

  lemma Assoc4(front: string, item: string, tail: string)
    ensures front + " " + item + tail == front + (" " + item + tail)
  {
  }

  lemma {:induction false} FrontThenTail(params: seq<string>, i: nat)
    requires i <= |params|
    ensures Front(params, i) + Tail(params, i) == Tail(params, 0)
  {
    if i > 0 {
      FrontThenTail(params, i - 1);
      var front, item, tail := Front(params, i - 1), Item(params, i - 1), Tail(params, i);
      Assoc4(front, item, tail);
      assert Front(params, i) == front + " " + item;
      assert Tail(params, i - 1) == " " + item + tail;
    }
  }

  method WriteParam(params: seq<string>, i: nat, out: string) returns (r: string)
    requires i < |params|
    ensures r == out + " " + Item(params, i)
  {
    if i + 1 == |params| {
      var p := StripLineBreaks(params[i]);
      if p == "" || p[0] == ':' || exists k :: 0 <= k < |p| && IsWhite(p[k]) {
        r := out + " :" + p;
        assert r == out + " " + (":" + p);
      } else {
        r := out + " " + p;
      }
    } else {
      r := out + " " + MiddleParam(params[i]);
    }
  }

  lemma Assoc(a: string, b: string, c: string)
    ensures a + b + c == a + (b + c)
  {
  }

  method WriteHead(m: Message) returns (out: string)
    ensures out == Head(m)
  {
    out := "";
    if m.prefix.Some? {
      out := ":" + Scrub(m.prefix.value) + " ";
    }
    out := out + Scrub(m.command);
  }

  method WriteParams(params: seq<string>, head: string) returns (out: string)
    ensures out == head + Front(params, |params|)
  {
    out := head;
    for i := 0 to |params|
      invariant out == head + Front(params, i)
    {
      ghost var front, item := Front(params, i), Item(params, i);
      out := WriteParam(params, i, out);
      Assoc(head, front, " ");
      Assoc(head, front + " ", item);
    }
  }

  method Display(m: Message) returns (out: string)
    ensures out == Printed(m)
  {
    out := WriteHead(m);
    out := WriteParams(m.params, out);
    FrontThenTail(m.params, |m.params|);
    assert Front(m.params, |m.params|) + "" == Front(m.params, |m.params|);
  }

  // ---- Print, then parse ----

  lemma {:induction false} SplitAtFirst(w: string, c: char, rest: string)
    requires forall i :: 0 <= i < |w| ==> w[i] != c
    ensures SplitOnce(w + [c] + rest, c) == Some((w, rest))
  {
    var s := w + [c] + rest;
    if w == "" {
      assert s[1..] == rest;
    } else {
      SplitAtFirst(w[1..], c, rest);
      assert s[1..] == w[1..] + [c] + rest;
      assert [w[0]] + w[1..] == w;
    }
  }

  lemma {:induction false} SplitNowhere(w: string, c: char)
    requires forall i :: 0 <= i < |w| ==> w[i] != c
    ensures SplitOnce(w, c) == None
  {
    if w != "" {
      SplitNowhere(w[1..], c);
    }
  }

  /** Every parameter after the first starts with something that is not a space. */
  lemma ItemStarts(params: seq<string>, i: nat)
    requires i < |params|
    ensures Item(params, i) != "" && Item(params, i)[0] != ' ' && NoBreaks(Item(params, i))
    ensures i + 1 < |params| ==> CleanWord(Item(params, i)) && Item(params, i)[0] != ':'
  {
    MiddleClean(params[i]);
    StripClean(params[i]);
  }

  /** What the parameters mean once printed: middle ones scrubbed, the last one only without
      line breaks. */
  function Meant(params: seq<string>, i: nat): string
    requires i < |params|
  {
    if i + 1 < |params| then MiddleParam(params[i]) else StripLineBreaks(params[i])
  }

  function MeantFrom(params: seq<string>, i: nat): seq<string>
    requires i <= |params|
    decreases |params| - i
  {
    if i == |params| then [] else [Meant(params, i)] + MeantFrom(params, i + 1)
  }

  lemma {:induction false} MeantAt(params: seq<string>, i: nat, k: nat)
    requires i <= k < |params|
    ensures |MeantFrom(params, i)| == |params| - i && MeantFrom(params, i)[k - i] == Meant(params, k)
    decreases |params| - i
  {
    if i + 1 < |params| {
      MeantAt(params, i + 1, if k == i then i + 1 else k);
    }
  }

  lemma MiddleParses(item: string, next: string)
    requires CleanWord(item) && item[0] != ':' && next != "" && next[0] != ' '
    ensures ParamsOf(item + ([' '] + next)) == [item] + ParamsOf(next)
  {
    var text := item + [' '] + next;
    assert text == item + ([' '] + next);
    SplitAtFirst(item, ' ', next);
    assert TrimSpaces(next) == next;
  }

  lemma LastParses(p: string)
    ensures ParamsOf(if NeedsColon(p) then ":" + p else p) == [p]
  {
    if NeedsColon(p) {
      assert (":" + p)[1..] == p;
    } else {
      SplitNowhere(p, ' ');
    }
  }

  lemma {:induction false} ParamsRoundTrip(params: seq<string>, i: nat)
    requires i < |params|
    ensures ParamsOf(Item(params, i) + Tail(params, i + 1)) == MeantFrom(params, i)
    decreases |params| - i
  {
    var item := Item(params, i);
    if i + 1 < |params| {
      ParamsRoundTrip(params, i + 1);
      var next := Item(params, i + 1) + Tail(params, i + 2);
      ItemStarts(params, i);
      ItemStarts(params, i + 1);
      MiddleParses(item, next);
      assert Tail(params, i + 1) == [' '] + next;
    } else {
      LastParses(StripLineBreaks(params[i]));
      assert item + "" == item;
      assert MeantFrom(params, i + 1) == [];
    }
  }

  predicate PlainCommand(s: string) {
    s != "" && forall i :: 0 <= i < |s| ==> 'a' <= s[i] <= 'z' || 'A' <= s[i] <= 'Z' || '0' <= s[i] <= '9'
  }

  lemma {:induction false} TailNoBreaks(params: seq<string>, i: nat)
    requires i <= |params|
    ensures NoBreaks(Tail(params, i))
    decreases |params| - i
  {
    if i < |params| {
      ItemStarts(params, i);
      TailNoBreaks(params, i + 1);
      ConcatNoBreaks(" " + Item(params, i), Tail(params, i + 1));
    }
  }

  lemma ConcatNoBreaks(a: string, b: string)
    requires NoBreaks(a) && NoBreaks(b)
    ensures NoBreaks(a + b)
  {
  }

  /** A printed line has no CR, LF or NUL. */
  lemma PrintedIsOneLine(m: Message)
    ensures NoBreaks(Printed(m))
  {
    ScrubClean(m.command);
    if m.prefix.Some? {
      ScrubClean(m.prefix.value);
    }
    TailNoBreaks(m.params, 0);
  }

  lemma CommandParses(tags: seq<(string, Option<string>)>, prefix: Option<string>, command: string, text: string)
    requires PlainCommand(command) && text != "" && text[0] != ' '
    ensures ParseCommand(tags, prefix, command + ([' '] + text)) == Some(Message(tags, prefix, Upper(command), ParamsOf(text)))
  {
    assert command + ([' '] + text) == command + [' '] + text;
    SplitAtFirst(command, ' ', text);
    assert TrimSpaces(text) == text;
  }

  lemma CommandRoundTrip(tags: seq<(string, Option<string>)>, prefix: Option<string>, command: string, params: seq<string>)
    requires PlainCommand(command)
    ensures ParseCommand(tags, prefix, command + Tail(params, 0))
         == Some(Message(tags, prefix, Upper(command), MeantFrom(params, 0)))
  {
    if params == [] {
      assert command + "" == command;
      SplitNowhere(command, ' ');
    } else {
      TailShape(params);
      ItemStarts(params, 0);
      ParamsRoundTrip(params, 0);
      CommandParses(tags, prefix, command, Item(params, 0) + Tail(params, 1));
    }
  }

  lemma TailShape(params: seq<string>)
    requires params != []
    ensures Tail(params, 0) == [' '] + (Item(params, 0) + Tail(params, 1))
  {
  }

  /** A line that starts with a command has no tags and no prefix to take off. */
  lemma BareParses(body: string)
    requires body != "" && NoBreaks(body) && !IsWhite(body[0]) && body[0] != '@' && body[0] != ':'
    ensures Parse(body) == ParseCommand([], None, body)
  {
  }

  lemma PrefixParses(prefix: string, body: string)
    requires NoWhite(prefix) && body != "" && !IsWhite(body[0]) && NoBreaks(":" + prefix + " " + body)
    ensures Parse(":" + prefix + " " + body) == ParseCommand([], Some(prefix), body)
  {
    var line := ":" + prefix + " " + body;
    assert line[1..] == prefix + [' '] + body;
    SplitAtFirst(prefix, ' ', body);
    assert TrimEndBreaks(line) == line && TrimStart(line) == line;
  }

  /** Print, then parse: for a plain command, any parameters and any prefix, the line is one line
      and parses back to the same number of parameters, each middle one scrubbed and the last one
      as it was but for line breaks, spacing kept. */
  lemma PrintThenParse(m: Message)
    requires PlainCommand(m.command)
    ensures NoBreaks(Printed(m))
    ensures Parse(Printed(m)) ==
            Some(Message([], if m.prefix.Some? then Some(Scrub(m.prefix.value)) else None, Upper(m.command), MeantFrom(m.params, 0)))
    ensures |MeantFrom(m.params, 0)| == |m.params|
  {
    PrintedIsOneLine(m);
    ScrubKeepsClean(m.command);
    PrintedShape(m);
    var body := m.command + Tail(m.params, 0);
    if m.params != [] {
      MeantAt(m.params, 0, 0);
    }
    if m.prefix.Some? {
      ScrubClean(m.prefix.value);
      PrefixParses(Scrub(m.prefix.value), body);
      CommandRoundTrip([], Some(Scrub(m.prefix.value)), m.command, m.params);
    } else {
      BareParses(body);
      CommandRoundTrip([], None, m.command, m.params);
    }
  }

  lemma PrintedShape(m: Message)
    ensures var body := Scrub(m.command) + Tail(m.params, 0);
            Printed(m) == if m.prefix.Some? then ":" + Scrub(m.prefix.value) + " " + body else body
    ensures m.command != "" && Scrub(m.command) == m.command ==> (m.command + Tail(m.params, 0))[0] == m.command[0]
  {
    var command, tail := Scrub(m.command), Tail(m.params, 0);
    if m.prefix.Some? {
      Assoc(":" + Scrub(m.prefix.value) + " ", command, tail);
    } else {
      assert "" + command == command;
    }
  }
}
