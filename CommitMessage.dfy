/**
 * The commit-message formatter of `qit commit`: the closed set of commit
 * types, the glyph each one is decorated with (emojis after gitmoji.dev),
 * the QIT_DISABLE_EMOJIS switch, and the trimmed
 * `<emoji> <type>[(<area>)]: <message>` line handed to `git commit`.
 */
module CommitMessage {
  import opened Wrappers
  import opened Text

  datatype CommitType = Chore | Feature | Refactor | Fix | Test | Style | Doc | Deps | Deploy

  /** The values the command line accepts for the commit type, in the order it lists them. */
  const PossibleValues: seq<string> :=
    ["chore", "feature", "refactor", "fix", "test", "style", "doc", "deps", "deploy"]

  predicate IsLower(c: char) {
    'a' <= c <= 'z'
  }

  /** The word a commit type is written as, on the command line and in the message. */
  function Name(t: CommitType): (w: string)
    ensures w != [] && forall i :: 0 <= i < |w| ==> IsLower(w[i])
    ensures w in PossibleValues
  {
    match t
    case Chore => "chore"
    case Feature => "feature"
    case Refactor => "refactor"
    case Fix => "fix"
    case Test => "test"
    case Style => "style"
    case Doc => "doc"
    case Deps => "deps"
    case Deploy => "deploy"
  }

  /**
   * The arms of the type match: the nine accepted words, and nothing for
   * any other word (where the source panics with "Unknown commit type").
   */
  function ParseType(s: string): (r: Option<CommitType>)
    ensures r.Some? <==> s in PossibleValues
    ensures r.Some? ==> Name(r.value) == s
  {
    if s == "chore" then Some(Chore)
    else if s == "feature" then Some(Feature)
    else if s == "refactor" then Some(Refactor)
    else if s == "fix" then Some(Fix)
    else if s == "test" then Some(Test)
    else if s == "style" then Some(Style)
    else if s == "doc" then Some(Doc)
    else if s == "deps" then Some(Deps)
    else if s == "deploy" then Some(Deploy)
    else None
  }

  /** Every commit type is parsed back from its own word, so no two types share a word. */
  lemma ParseName(t: CommitType)
    ensures ParseType(Name(t)) == Some(t)
  {
    match t
    case Chore =>
    case Feature =>
    case Refactor =>
    case Fix =>
    case Test =>
    case Style =>
    case Doc =>
    case Deps =>
    case Deploy =>
  }

  /** The fixed glyph of each commit type. */
  function Emoji(t: CommitType): (g: string)
    ensures g != []
    ensures forall i :: 0 <= i < |g| ==> !IsWhitespace(g[i])
  {
    match t
    case Chore => "\U{1F6A7}"
    case Feature => "\U{2728}"
    case Refactor => "\U{267B}\U{FE0F}"
    case Fix => "\U{1F41B}"
    case Test => "\U{2705}"
    case Style => "\U{1F3A8}"
    case Doc => "\U{1F4DD}"
    case Deps => "\U{1F4E6}"
    case Deploy => "\U{1F680}"
  }

  /** Distinct types have glyphs that differ already in their first character. */
  lemma EmojiInjective(t1: CommitType, t2: CommitType)
    ensures Emoji(t1)[0] == Emoji(t2)[0] ==> t1 == t2
  {
  }

  /** QIT_DISABLE_EMOJIS (absent or not Unicode: `None`) switches the glyph off only when it reads "true". */
  predicate EmojisDisabled(toggle: Option<string>) {
    toggle == Some("true")
  }

  /** The glyph that goes in front of the message. */
  function Glyph(t: CommitType, toggle: Option<string>): (g: string)
    ensures g == [] <==> EmojisDisabled(toggle)
    ensures g != [] ==> g == Emoji(t)
  {
    match toggle
    case Some(value) => if value == "true" then "" else Emoji(t)
    case None => Emoji(t)
  }

  /** The `format!` call, before trimming. */
  function Draft(t: CommitType, area: Option<string>, message: string, glyph: string): string {
    match area
    case Some(a) => glyph + " " + Name(t) + "(" + a + "): " + message
    case None => glyph + " " + Name(t) + ": " + message
  }

  /** The commit message: the draft with its leading and trailing whitespace trimmed. */
  function Format(t: CommitType, area: Option<string>, message: string, toggle: Option<string>): string {
    Trim(Draft(t, area, message, Glyph(t, toggle)))
  }

  /** The optional `(<area>)` after the type. */
  function Scope(area: Option<string>): string {
    match area
    case Some(a) => "(" + a + ")"
    case None => ""
  }

  /** The part of the message that comes before the colon, as the help text describes it. */
  function Header(t: CommitType, area: Option<string>, toggle: Option<string>): string {
    (if EmojisDisabled(toggle) then "" else Emoji(t) + " ") + (Name(t) + Scope(area))
  }

  /**
   * What trimming does to the draft: the message is the header, a colon,
   * and, unless the free text is blank, a space and the free text with its
   * trailing whitespace removed (its leading whitespace stays). With
   * emojis disabled the line therefore starts with the type itself.
   */
  lemma FormatShape(t: CommitType, area: Option<string>, message: string, toggle: Option<string>)
    ensures Format(t, area, message, toggle)
         == Header(t, area, toggle) + ":" + (if IsBlank(message) then "" else " " + TrimEnd(message))
  {
    var g := Glyph(t, toggle);
    var word := Name(t) + Scope(area);
    DraftParts(t, area, message, g);
    TrimDraft(g, word, message);
  }

  /** Both arms of the `format!` call put the glyph, a space, the type with its scope, a colon and a space before the text. */
  lemma DraftParts(t: CommitType, area: Option<string>, message: string, g: string)
    ensures Draft(t, area, message, g) == g + " " + (Name(t) + Scope(area)) + ": " + message
    ensures Name(t) + Scope(area) != [] && !IsWhitespace((Name(t) + Scope(area))[0])
  {
    var n := Name(t);
    assert n != [] && !IsWhitespace(n[0]);
    match area
    case Some(a) =>
      assert g + " " + n + "(" + a + "): " + message == g + " " + (n + ("(" + a + ")")) + ": " + message;
    case None =>
      assert n + Scope(area) == n;
    assert (n + Scope(area))[0] == n[0];
  }

  /**
   * Trimming `glyph + " " + word + ": " + text` for a glyph that is empty
   * or starts with a non-whitespace character and a word that starts with one.
   */
  lemma TrimDraft(glyph: string, word: string, text: string)
    requires glyph != [] ==> !IsWhitespace(glyph[0])
    requires word != [] && !IsWhitespace(word[0])
    ensures Trim(glyph + " " + word + ": " + text)
         == (if glyph == [] then "" else glyph + " ") + word + ":" + (if IsBlank(text) then "" else " " + TrimEnd(text))
  {
    var head := (if glyph == [] then "" else glyph + " ") + word + ":";
    TrimDraftStart(glyph, word, text);
    assert head + " " + text == (if glyph == [] then "" else glyph + " ") + word + ":" + " " + text;
    TrimDraftEnd(head, text);
  }

  /** Leading whitespace of the draft: only the separator space in front of the word, when there is no glyph. */
  lemma TrimDraftStart(glyph: string, word: string, text: string)
    requires glyph != [] ==> !IsWhitespace(glyph[0])
    requires word != [] && !IsWhitespace(word[0])
    ensures TrimStart(glyph + " " + word + ": " + text)
         == (if glyph == [] then "" else glyph + " ") + word + ":" + " " + text
  {
    var head := (if glyph == [] then "" else glyph + " ") + word + ":";
    var tail := " " + text;
    if glyph == [] {
      assert glyph + " " + word + ": " + text == " " + (head + tail);
      TrimStartBlankPrefix(" ", head + tail);
      assert (head + tail)[0] == word[0];
    } else {
      assert glyph + " " + word + ": " + text == head + tail;
      assert (head + tail)[0] == glyph[0];
    }
    TrimStartKeeps(head + tail);
  }

  /** Trailing whitespace of the draft: the text's, and the space before it when the text is blank. */
  lemma TrimDraftEnd(head: string, text: string)
    requires head != [] && !IsWhitespace(head[|head| - 1])
    ensures TrimEnd(head + " " + text) == head + (if IsBlank(text) then "" else " " + TrimEnd(text))
  {
    assert head + " " + text == head + (" " + text);
    TrimEndAppend(head, " " + text);
    BlankAfterSpace(text);
    if IsBlank(text) {
      TrimEndKeeps(head);
    } else {
      TrimEndAppend(" ", text);
    }
  }

  /** A space in front does not change whether a text is blank. */
  lemma BlankAfterSpace(text: string)
    ensures IsBlank(" " + text) <==> IsBlank(text)
  {
    var tail := " " + text;
    if IsBlank(text) {
      forall i | 0 <= i < |tail| ensures IsWhitespace(tail[i]) {
        if i > 0 { assert tail[i] == text[i - 1]; }
      }
    }
    if IsBlank(tail) {
      forall i | 0 <= i < |text| ensures IsWhitespace(text[i]) {
        assert text[i] == tail[i + 1];
      }
    }
  }

  /** With emojis disabled the message starts with the type word: no glyph and no leading space. */
  lemma StartsWithType(t: CommitType, area: Option<string>, message: string, toggle: Option<string>)
    requires EmojisDisabled(toggle)
    ensures |Name(t)| <= |Format(t, area, message, toggle)|
    ensures Format(t, area, message, toggle)[..|Name(t)|] == Name(t)
  {
    var rest := if IsBlank(message) then "" else " " + TrimEnd(message);
    assert Name(t) + Scope(area) + ":" + rest == Name(t) + (Scope(area) + ":" + rest);
    FormatShape(t, area, message, toggle);
    assert Header(t, area, toggle) == Name(t) + Scope(area);
  }

  /** With emojis enabled the message starts with the type's glyph followed by one space. */
  lemma StartsWithGlyph(t: CommitType, area: Option<string>, message: string, toggle: Option<string>)
    requires !EmojisDisabled(toggle)
    ensures |Emoji(t)| < |Format(t, area, message, toggle)|
    ensures Format(t, area, message, toggle)[..|Emoji(t)| + 1] == Emoji(t) + " "
  {
    var rest := if IsBlank(message) then "" else " " + TrimEnd(message);
    assert Emoji(t) + " " + (Name(t) + Scope(area)) + ":" + rest == Emoji(t) + " " + (Name(t) + Scope(area) + ":" + rest);
    FormatShape(t, area, message, toggle);
  }

  /** A free text that does not end in whitespace is kept whole, after the header, a colon and a space. */
  lemma FormatKeepsText(t: CommitType, area: Option<string>, message: string, toggle: Option<string>)
    requires message != [] && !IsWhitespace(message[|message| - 1])
    ensures Format(t, area, message, toggle) == Header(t, area, toggle) + ": " + message
  {
    var h := Header(t, area, toggle);
    assert h + ":" + (" " + message) == h + ": " + message;
    assert !IsBlank(message);
    TrimEndKeeps(message);
    FormatShape(t, area, message, toggle);
  }

  /** The help text's `feature` example, whenever QIT_DISABLE_EMOJIS is not "true". */
  lemma FeatureExample(toggle: Option<string>)
    requires !EmojisDisabled(toggle)
    ensures Format(Feature, None, "Add thing", toggle) == "\U{2728} feature: Add thing"
  {
    assert Header(Feature, None, toggle) + ": " + "Add thing" == "\U{2728} feature: Add thing" by {
      assert Header(Feature, None, toggle) == "\U{2728} feature";
    }
    FormatKeepsText(Feature, None, "Add thing", toggle);
  }

  /** The help text's `feature(cli)` example. */
  lemma FeatureAreaExample(toggle: Option<string>)
    requires !EmojisDisabled(toggle)
    ensures Format(Feature, Some("cli"), "Improve args", toggle) == "\U{2728} feature(cli): Improve args"
  {
    assert Header(Feature, Some("cli"), toggle) + ": " + "Improve args" == "\U{2728} feature(cli): Improve args" by {
      assert Header(Feature, Some("cli"), toggle) == "\U{2728} feature(cli)";
    }
    FormatKeepsText(Feature, Some("cli"), "Improve args", toggle);
  }

  /** The help text's `chore` example. */
  lemma ChoreExample(toggle: Option<string>)
    requires !EmojisDisabled(toggle)
    ensures Format(Chore, None, "Do thing", toggle) == "\U{1F6A7} chore: Do thing"
  {
    assert Header(Chore, None, toggle) + ": " + "Do thing" == "\U{1F6A7} chore: Do thing" by {
      assert Header(Chore, None, toggle) == "\U{1F6A7} chore";
    }
    FormatKeepsText(Chore, None, "Do thing", toggle);
  }

  /** The help text's `deploy(api)` example. */
  lemma DeployExample(toggle: Option<string>)
    requires !EmojisDisabled(toggle)
    ensures Format(Deploy, Some("api"), "Deploy to production", toggle) == "\U{1F680} deploy(api): Deploy to production"
  {
    assert Header(Deploy, Some("api"), toggle) + ": " + "Deploy to production" == "\U{1F680} deploy(api): Deploy to production" by {
      assert Header(Deploy, Some("api"), toggle) == "\U{1F680} deploy(api)";
    }
    FormatKeepsText(Deploy, Some("api"), "Deploy to production", toggle);
  }

  /** With QIT_DISABLE_EMOJIS set to "true" the example commit reads exactly "fix(cli): Fix bug". */
  lemma DisabledExample(toggle: Option<string>)
    requires EmojisDisabled(toggle)
    ensures Format(Fix, Some("cli"), "Fix bug", toggle) == "fix(cli): Fix bug"
  {
    assert Header(Fix, Some("cli"), toggle) + ": " + "Fix bug" == "fix(cli): Fix bug" by {
      assert Header(Fix, Some("cli"), toggle) == "fix(cli)";
    }
    FormatKeepsText(Fix, Some("cli"), "Fix bug", toggle);
  }

  /** A blank free text leaves the header and the colon, with no trailing space. */
  lemma BlankMessage(t: CommitType, area: Option<string>, message: string, toggle: Option<string>)
    requires IsBlank(message)
    ensures Format(t, area, message, toggle) == Header(t, area, toggle) + ":"
  {
    FormatShape(t, area, message, toggle);
  }

  /** The longest prefix of lower-case letters. */
  ghost function LeadingWord(s: string): string
    decreases |s|
  {
    if s != [] && IsLower(s[0]) then [s[0]] + LeadingWord(s[1..]) else []
  }

  lemma {:induction false} LeadingWordOf(w: string, rest: string)
    requires forall i :: 0 <= i < |w| ==> IsLower(w[i])
    requires rest != [] && !IsLower(rest[0])
    ensures LeadingWord(w + rest) == w
    decreases |w|
  {
    if w == [] {
      assert w + rest == rest;
    } else {
      assert (w + rest)[0] == w[0];
      assert (w + rest)[1..] == w[1..] + rest;
      LeadingWordOf(w[1..], rest);
      assert w == [w[0]] + w[1..];
    }
  }

  /** A lower-case word followed by a non-letter can be read back from the front of a string. */
  lemma {:induction false} WordBeforeMark(w1: string, rest1: string, w2: string, rest2: string)
    requires forall i :: 0 <= i < |w1| ==> IsLower(w1[i])
    requires forall i :: 0 <= i < |w2| ==> IsLower(w2[i])
    requires rest1 != [] && !IsLower(rest1[0])
    requires rest2 != [] && !IsLower(rest2[0])
    requires w1 + rest1 == w2 + rest2
    ensures w1 == w2
  {
    LeadingWordOf(w1, rest1);
    LeadingWordOf(w2, rest2);
  }

  /** The message split after its type word, when the glyph is off. */
  lemma SplitAfterType(t: CommitType, area: Option<string>, message: string, toggle: Option<string>)
    returns (rest: string)
    requires EmojisDisabled(toggle)
    ensures rest != [] && (rest[0] == '(' || rest[0] == ':')
    ensures Format(t, area, message, toggle) == Name(t) + rest
  {
    var tail := if IsBlank(message) then "" else " " + TrimEnd(message);
    assert Name(t) + Scope(area) + ":" + tail == Name(t) + (Scope(area) + ":" + tail);
    FormatShape(t, area, message, toggle);
    assert Header(t, area, toggle) == Name(t) + Scope(area);
    rest := Scope(area) + ":" + tail;
    assert rest[0] == (if area.Some? then '(' else ':');
  }

  /** The commit type can be read back from the message: two messages of different types differ. */
  lemma FormatDeterminesType(t1: CommitType, area1: Option<string>, message1: string,
                             t2: CommitType, area2: Option<string>, message2: string,
                             toggle: Option<string>)
    requires Format(t1, area1, message1, toggle) == Format(t2, area2, message2, toggle)
    ensures t1 == t2
  {
    if EmojisDisabled(toggle) {
      var rest1 := SplitAfterType(t1, area1, message1, toggle);
      var rest2 := SplitAfterType(t2, area2, message2, toggle);
      WordBeforeMark(Name(t1), rest1, Name(t2), rest2);
      ParseName(t1);
      ParseName(t2);
    } else {
      StartsWithGlyph(t1, area1, message1, toggle);
      StartsWithGlyph(t2, area2, message2, toggle);
      var m := Format(t1, area1, message1, toggle);
      assert m[0] == (Emoji(t1) + " ")[0] == Emoji(t1)[0];
      assert m[0] == (Emoji(t2) + " ")[0] == Emoji(t2)[0];
      EmojiInjective(t1, t2);
    }
  }
}
