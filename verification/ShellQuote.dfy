/** Quoting for a POSIX shell, and the words a shell reads back: escape characters and single
    quotes as in sections 2.2.1 and 2.2.2 of the Shell Command Language, IEEE Std 1003.1. */
module ShellQuote {
  import opened Wrappers
  import opened Text

  const QUOTE := "'"

  /** Close, an escaped quote, reopen. */
  const ESCAPED := "'\\''"

  function Quote(s: string): string { QUOTE + ReplaceAll(s, QUOTE, ESCAPED) + QUOTE }

  predicate Blank(c: char) { c == ' ' || c == '\t' }

  /** Characters that mean something else to a shell when they stand unquoted. */
  predicate Special(c: char) {
    c in {'|', '&', ';', '<', '>', '(', ')', '$', '`', '"', '\n', '*', '?', '[', '#', '~', '=', '%', '!', '{', '}'}
  }

  function Extend(word: Option<string>, s: string): Option<string> {
    Some((if word.Some? then word.value else "") + s)
  }

  function Finish(words: seq<string>, word: Option<string>): seq<string> {
    if word.Some? then words + [word.value] else words
  }

  /** Reads words from t, given whether a quote is open, the word begun, and the words so far.
      None where a quote or an escape is left open, or an unquoted special character comes. */
  function Scan(t: string, quoted: bool, word: Option<string>, words: seq<string>): Option<seq<string>>
    decreases |t|
  {
    if t == "" then if quoted then None else Some(Finish(words, word))
    else if quoted then
      if t[0] == '\'' then Scan(t[1..], false, word, words)
      else Scan(t[1..], true, Extend(word, [t[0]]), words)
    else if t[0] == '\'' then Scan(t[1..], true, Extend(word, ""), words)
    else if t[0] == '\\' then
      if |t| == 1 then None
      else if t[1] == '\n' then Scan(t[2..], false, word, words)
      else Scan(t[2..], false, Extend(word, [t[1]]), words)
    else if Blank(t[0]) then Scan(t[1..], false, None, Finish(words, word))
    else if Special(t[0]) then None
    else Scan(t[1..], false, Extend(word, [t[0]]), words)
  }

  function Words(t: string): Option<seq<string>> { Scan(t, false, None, []) }

  /** Inside the quotes everything is literal, embedded quotes included. */
  lemma {:induction false} ScanQuoted(s: string, w: string, words: seq<string>, rest: string)
    ensures Scan(ReplaceAll(s, QUOTE, ESCAPED) + (QUOTE + rest), true, Some(w), words) ==
            Scan(rest, false, Some(w + s), words)
    decreases |s|
  {
    if s == "" {
      assert ReplaceAll(s, QUOTE, ESCAPED) + (QUOTE + rest) == QUOTE + rest;
      assert (QUOTE + rest)[1..] == rest;
      assert w + s == w;
    } else {
      var tail := ReplaceAll(s[1..], QUOTE, ESCAPED) + (QUOTE + rest);
      ScanQuoted(s[1..], w + [s[0]], words, rest);
      assert w + [s[0]] + s[1..] == w + s;
      HeadOf(s, rest);
      if s[0] == '\'' {
        ScanEscaped(tail, w, words);
      } else {
        assert ([s[0]] + tail)[1..] == tail;
      }
    }
  }

  lemma HeadOf(s: string, rest: string)
    requires s != ""
    ensures ReplaceAll(s, QUOTE, ESCAPED) + (QUOTE + rest) ==
            (if s[0] == '\'' then ESCAPED else [s[0]]) + (ReplaceAll(s[1..], QUOTE, ESCAPED) + (QUOTE + rest))
  {
    assert s[..1] == [s[0]];
  }

  /** The escape sequence closes the quote, adds one quote character and opens it again. */
  lemma ScanEscaped(tail: string, w: string, words: seq<string>)
    ensures Scan(ESCAPED + tail, true, Some(w), words) == Scan(tail, true, Some(w + "'"), words)
  {
    var t, t1, t2 := ESCAPED + tail, "\\''" + tail, "'" + tail;
    assert t[0] == '\'' && t[1..] == t1;
    assert t1[0] == '\\' && t1[1] == '\'' && t1[2..] == t2 && [t1[1]] == "'";
    assert t2[0] == '\'' && t2[1..] == tail;
    assert w + "'" + "" == w + "'";
    assert Scan(t, true, Some(w), words) == Scan(t1, false, Some(w), words);
    assert Scan(t1, false, Some(w), words) == Scan(t2, false, Some(w + "'"), words);
  }

  /** A quoted string, wherever a word may stand, adds exactly that string to the word. */
  lemma ScanQuote(s: string, word: Option<string>, words: seq<string>, rest: string)
    ensures Scan(Quote(s) + rest, false, word, words) == Scan(rest, false, Extend(word, s), words)
  {
    var t := ReplaceAll(s, QUOTE, ESCAPED) + (QUOTE + rest);
    assert Quote(s) + rest == QUOTE + t;
    assert (QUOTE + t)[1..] == t;
    var w := Extend(word, "").value;
    assert w == if word.Some? then word.value else "";
    ScanQuoted(s, w, words, rest);
    assert Extend(word, s) == Some(w + s);
  }

  /** A shell reads a quoted string as one word, equal to the string. */
  lemma OneWord(s: string)
    ensures Words(Quote(s)) == Some([s])
  {
    assert Quote(s) + "" == Quote(s);
    ScanQuote(s, None, [], "");
    assert "" + s == s && Finish([], Some(s)) == [s];
  }

  function Joined(args: seq<string>): string {
    if args == [] then ""
    else if |args| == 1 then Quote(args[0])
    else Quote(args[0]) + (" " + Joined(args[1..]))
  }

  lemma {:induction false} ScanJoined(args: seq<string>, words: seq<string>)
    ensures Scan(Joined(args), false, None, words) == Some(words + args)
    decreases |args|
  {
    if args == [] {
      assert words + args == words;
    } else {
      assert "" + args[0] == args[0];
      if |args| == 1 {
        assert Quote(args[0]) + "" == Quote(args[0]);
        ScanQuote(args[0], None, words, "");
        assert args == [args[0]];
      } else {
        var rest := Joined(args[1..]);
        ScanQuote(args[0], None, words, " " + rest);
        assert (" " + rest)[1..] == rest;
        ScanJoined(args[1..], words + [args[0]]);
        assert words + [args[0]] + args[1..] == words + args;
      }
    }
  }

  /** Arguments quoted one by one and set apart by blanks are read back as they were, in
      order, whatever they contain. */
  lemma ArgumentsSurvive(args: seq<string>)
    ensures Words(Joined(args)) == Some(args)
  {
    ScanJoined(args, []);
    assert [] + args == args;
  }
}
