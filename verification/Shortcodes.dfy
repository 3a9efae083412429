/** Shortcode expansion of server commands: {key} placeholders are replaced one key at a
    time, in the arbitrary order in which Go walks its maps. */
module Shortcodes {
  import opened Wrappers
  import opened Text

  predicate BraceFree(s: string) { '{' !in s && '}' !in s }

  /** Length of the brace-free prefix. */
  function Plain(s: string): (n: nat)
    ensures n <= |s| && BraceFree(s[..n])
    ensures n < |s| ==> s[n] == '{' || s[n] == '}'
  {
    if s == "" || s[0] == '{' || s[0] == '}' then 0
    else
      var n := Plain(s[1..]);
      assert s[..n + 1] == [s[0]] + s[1..][..n];
      1 + n
  }

  function Placeholder(key: string): (p: string)
    ensures |p| == |key| + 2
  {
    "{" + key + "}"
  }

  // ---------------------------------------------------------------------------
  // Texts as placeholders and single characters
  // ---------------------------------------------------------------------------

  /** The text starts with a placeholder. */
  predicate Token(s: string) {
    s != "" && s[0] == '{' && var n := Plain(s[1..]); n + 1 < |s| && s[n + 1] == '}'
  }

  function NameOf(s: string): (name: string)
    requires Token(s)
    ensures BraceFree(name) && |name| + 2 <= |s| && s[..|name| + 2] == Placeholder(name)
  {
    var n := Plain(s[1..]);
    assert s[1..][..n] == s[1..n + 1];
    s[1..n + 1]
  }

  /** The first piece: a placeholder, or else one character. */
  function Head(s: string): (h: string)
    requires s != ""
    ensures 0 < |h| <= |s| && s == h + s[|h|..]
    ensures Token(s) ==> h == Placeholder(NameOf(s))
    ensures !Token(s) ==> h == [s[0]]
  {
    if Token(s) then Placeholder(NameOf(s)) else [s[0]]
  }

  function Tail(s: string): (t: string)
    requires s != ""
    ensures s == Head(s) + t && |t| < |s|
  {
    s[|Head(s)|..]
  }

  /** Names that stand between braces. */
  function Names(s: string): set<string>
    decreases |s|
  {
    if s == "" then {} else (if Token(s) then {NameOf(s)} else {}) + Names(Tail(s))
  }

  /** What a piece becomes; a placeholder without a value stays as it is. */
  function Piece(s: string, env: map<string, string>): string
    requires s != ""
  {
    if Token(s) && NameOf(s) in env then env[NameOf(s)] else Head(s)
  }

  /** All placeholders replaced at once. */
  function Expand(s: string, env: map<string, string>): string
    decreases |s|
  {
    if s == "" then "" else Piece(s, env) + Expand(Tail(s), env)
  }

  /** Reading on from inside d open braces, a closing brace comes that matches one outside. */
  predicate Closes(s: string, d: nat) {
    if s == "" then false
    else if s[0] == '{' then Closes(s[1..], d + 1)
    else if s[0] == '}' then d == 0 || Closes(s[1..], d - 1)
    else Closes(s[1..], d)
  }

  /** No matched pair of braces contains another one: an opening brace either starts a
      placeholder or is never matched. */
  predicate Unnested(s: string)
    decreases |s|
  {
    s == "" || ((Token(s) || s[0] != '{' || !Closes(s[1..], 0)) && Unnested(Tail(s)))
  }

  ghost predicate PlainValues(env: map<string, string>) {
    forall k :: k in env ==> BraceFree(env[k])
  }

  // ---------------------------------------------------------------------------
  // Putting a piece in front
  // ---------------------------------------------------------------------------

  lemma {:induction false} PlainOf(name: string, rest: string)
    requires BraceFree(name) && (rest == "" || rest[0] == '{' || rest[0] == '}')
    ensures Plain(name + rest) == |name|
  {
    if name == "" {
      assert name + rest == rest;
    } else {
      assert (name + rest)[1..] == name[1..] + rest;
      PlainOf(name[1..], rest);
    }
  }

  lemma TokenFront(name: string, s: string)
    requires BraceFree(name)
    ensures var t := Placeholder(name) + s; Token(t) && NameOf(t) == name && Tail(t) == s
  {
    var t := Placeholder(name) + s;
    assert t[1..] == name + ("}" + s);
    PlainOf(name, "}" + s);
    assert t[1..|name| + 1] == name && t[|name| + 1] == '}' && t[|name| + 2..] == s;
  }

  lemma CharFront(c: char, s: string)
    requires c != '{'
    ensures var t := [c] + s; !Token(t) && Tail(t) == s
  {
    assert ([c] + s)[1..] == s;
  }

  /** An opening brace in front of a text whose first brace does not close it. */
  lemma OpenFront(s: string)
    requires Plain(s) == |s| || s[Plain(s)] == '{'
    ensures var t := "{" + s; !Token(t) && Tail(t) == s
  {
    assert ("{" + s)[1..] == s;
  }

  lemma Assoc(a: string, b: string, c: string)
    ensures (a + b) + c == a + (b + c)
  {
  }

  lemma NothingThere(env: map<string, string>)
    ensures Expand("", env) == "" && Names("") == {}
  {
  }

  lemma Unfold(s: string, env: map<string, string>)
    requires s != ""
    ensures Expand(s, env) == Piece(s, env) + Expand(Tail(s), env)
    ensures Names(s) == (if Token(s) then {NameOf(s)} else {}) + Names(Tail(s))
  {
  }

  lemma TokenFacts(name: string, s: string, env: map<string, string>)
    requires BraceFree(name)
    ensures var t := Placeholder(name) + s;
            && Names(t) == {name} + Names(s)
            && Expand(t, env) == (if name in env then env[name] else Placeholder(name)) + Expand(s, env)
            && (Unnested(t) <==> Unnested(s))
  {
    TokenFront(name, s);
  }

  lemma CharFacts(c: char, s: string, env: map<string, string>)
    requires c != '{'
    ensures var t := [c] + s;
            Names(t) == Names(s) && Expand(t, env) == [c] + Expand(s, env) && (Unnested(t) <==> Unnested(s))
  {
    CharFront(c, s);
  }

  lemma OpenFacts(s: string, env: map<string, string>)
    requires Plain(s) == |s| || s[Plain(s)] == '{'
    ensures var t := "{" + s;
            && Names(t) == Names(s) && Expand(t, env) == "{" + Expand(s, env)
            && (Unnested(t) <==> !Closes(s, 0) && Unnested(s))
  {
    OpenFront(s);
    assert ("{" + s)[1..] == s;
  }

  lemma {:induction false} PlainFacts(v: string, s: string, env: map<string, string>)
    requires '{' !in v
    ensures Names(v + s) == Names(s) && Expand(v + s, env) == v + Expand(s, env) && (Unnested(v + s) <==> Unnested(s))
  {
    hide Names, Expand, Unnested;
    if v == "" {
      assert v + s == s;
    } else {
      assert v + s == [v[0]] + (v[1..] + s);
      CharFacts(v[0], v[1..] + s, env);
      PlainFacts(v[1..], s, env);
    }
  }

  // ---------------------------------------------------------------------------
  // Matching braces
  // ---------------------------------------------------------------------------

  lemma {:induction false} ClosesPlain(v: string, s: string, d: nat)
    requires BraceFree(v)
    ensures Closes(v + s, d) <==> Closes(s, d)
  {
    if v == "" {
      assert v + s == s;
    } else {
      assert (v + s)[1..] == v[1..] + s;
      ClosesPlain(v[1..], s, d);
    }
  }

  lemma ClosesToken(name: string, s: string, d: nat)
    requires BraceFree(name)
    ensures Closes(Placeholder(name) + s, d) <==> Closes(s, d)
  {
    var t := Placeholder(name) + s;
    assert t[1..] == name + ("}" + s);
    ClosesPlain(name, "}" + s, d + 1);
    assert ("}" + s)[1..] == s;
  }

  /** The first brace of a text that closes nothing outside is an opening one. */
  lemma FirstBraceOpens(s: string)
    requires !Closes(s, 0)
    ensures Plain(s) == |s| || s[Plain(s)] == '{'
  {
    hide Plain, Closes;
    var n := Plain(s);
    assert s == s[..n] + s[n..];
    ClosesPlain(s[..n], s[n..], 0);
    ClosesHead(s[n..]);
  }

  lemma ClosesHead(s: string)
    ensures s != "" && s[0] == '}' ==> Closes(s, 0)
  {
  }

  /** Expansion by brace-free values leaves every other matching alone. */
  lemma {:induction false} ClosesExpand(s: string, env: map<string, string>, d: nat)
    requires PlainValues(env)
    ensures Closes(Expand(s, env), d) <==> Closes(s, d)
    decreases |s|
  {
    hide Names, Unnested, Expand;
    if s == "" {
      NothingThere(env);
    } else {
      var t, r := Tail(s), Expand(Tail(s), env);
      Unfold(s, env);
      if Token(s) {
        ClosesToken(NameOf(s), t, d);
        ClosesToken(NameOf(s), r, d);
        ClosesExpand(t, env, d);
        if NameOf(s) in env { ClosesPlain(env[NameOf(s)], r, d); }
      } else {
        assert s[1..] == t && ([s[0]] + r)[1..] == r;
        ClosesExpand(t, env, d);
        ClosesExpand(t, env, d + 1);
        if d > 0 { ClosesExpand(t, env, d - 1); }
      }
    }
  }

  // ---------------------------------------------------------------------------
  // One expansion after another
  // ---------------------------------------------------------------------------

  /** What an expansion by brace-free values leaves of an unnested text: no new placeholder,
      exactly the names without a value, and a second expansion acts as if both were one. */
  ghost predicate Composes(s: string, first: map<string, string>, second: map<string, string>) {
    var r := Expand(s, first);
    Unnested(r) && Names(r) == Names(s) - first.Keys && Expand(r, second) == Expand(s, second + first)
  }

  lemma ComposesToken(name: string, s: string, first: map<string, string>, second: map<string, string>)
    requires BraceFree(name) && PlainValues(first) && Composes(s, first, second)
    ensures Composes(Placeholder(name) + s, first, second)
  {
    hide Expand, Names, Unnested;
    var r := Expand(s, first);
    TokenFacts(name, s, first);
    TokenFacts(name, s, second + first);
    TokenFacts(name, r, second);
    if name in first { PlainFacts(first[name], r, second); }
  }

  lemma ComposesChar(c: char, s: string, first: map<string, string>, second: map<string, string>)
    requires c != '{' && Composes(s, first, second)
    ensures Composes([c] + s, first, second)
  {
    hide Expand, Names, Unnested;
    CharFacts(c, s, first);
    CharFacts(c, s, second + first);
    CharFacts(c, Expand(s, first), second);
  }

  lemma ComposesOpen(s: string, first: map<string, string>, second: map<string, string>)
    requires PlainValues(first) && !Closes(s, 0) && Composes(s, first, second)
    ensures Composes("{" + s, first, second)
  {
    hide Expand, Names, Unnested, Closes;
    var r := Expand(s, first);
    ClosesExpand(s, first, 0);
    FirstBraceOpens(s);
    FirstBraceOpens(r);
    OpenFacts(s, first);
    OpenFacts(s, second + first);
    OpenFacts(r, second);
  }

  lemma {:induction false} ExpandTwice(s: string, first: map<string, string>, second: map<string, string>)
    requires Unnested(s) && PlainValues(first)
    ensures Composes(s, first, second)
    decreases |s|
  {
    hide Expand, Names, Composes, Closes;
    if s == "" {
      NothingTwice(first, second);
    } else {
      var t := Tail(s);
      ExpandTwice(t, first, second);
      if Token(s) {
        ComposesToken(NameOf(s), t, first, second);
      } else if s[0] != '{' {
        ComposesChar(s[0], t, first, second);
      } else {
        assert s[1..] == t;
        ComposesOpen(t, first, second);
      }
    }
  }

  lemma NothingTwice(first: map<string, string>, second: map<string, string>)
    ensures Composes("", first, second)
  {
  }

  /** A text without a known name expands to itself. */
  lemma {:induction false} NothingToExpand(s: string, env: map<string, string>)
    requires Names(s) !! env.Keys
    ensures Expand(s, env) == s
    decreases |s|
  {
    hide Plain, Token, NameOf;
    if s != "" { NothingToExpand(Tail(s), env); }
  }

  // ---------------------------------------------------------------------------
  // One replacement is one expansion
  // ---------------------------------------------------------------------------

  lemma StartsWithToken(s: string, key: string)
    requires BraceFree(key) && |key| + 2 <= |s|
    ensures s[..|key| + 2] == Placeholder(key) <==> Token(s) && NameOf(s) == key
  {
    if s[..|key| + 2] == Placeholder(key) {
      assert s == Placeholder(key) + s[|key| + 2..];
      TokenFront(key, s[|key| + 2..]);
    }
  }

  /** Replacing in a text that does not start with the placeholder leaves its first piece. */
  lemma {:induction false} PassOver(v: string, s: string, key: string, value: string)
    requires '{' !in v
    ensures ReplaceAll(v + s, Placeholder(key), value) == v + ReplaceAll(s, Placeholder(key), value)
  {
    hide Placeholder;
    if v == "" {
      assert v + s == s;
    } else {
      var t := v + s;
      assert t[1..] == v[1..] + s;
      NoMatch(t, key);
      PassHead(t, Placeholder(key), value);
      PassOver(v[1..], s, key, value);
    }
  }

  lemma NoMatch(t: string, key: string)
    requires t != "" && t[0] != '{'
    ensures |key| + 2 <= |t| ==> t[..|key| + 2] != Placeholder(key)
  {
    if |key| + 2 <= |t| { assert t[..|key| + 2][0] == t[0]; }
  }

  lemma PassHead(t: string, p: string, value: string)
    requires t != "" && p != "" && (|p| <= |t| ==> t[..|p|] != p)
    ensures ReplaceAll(t, p, value) == [t[0]] + ReplaceAll(t[1..], p, value)
  {
    assert t == [t[0]] + t[1..];
  }

  lemma HitToken(key: string, s: string, value: string)
    ensures ReplaceAll(Placeholder(key) + s, Placeholder(key), value) == value + ReplaceAll(s, Placeholder(key), value)
  {
    var t := Placeholder(key) + s;
    assert t[..|key| + 2] == Placeholder(key) && t[|key| + 2..] == s;
  }

  lemma PassToken(name: string, s: string, key: string, value: string)
    requires BraceFree(name) && BraceFree(key) && name != key
    ensures ReplaceAll(Placeholder(name) + s, Placeholder(key), value) ==
            Placeholder(name) + ReplaceAll(s, Placeholder(key), value)
  {
    hide ReplaceAll;
    var t, p := Placeholder(name) + s, Placeholder(key);
    TokenFront(name, s);
    if |p| <= |t| { StartsWithToken(t, key); }
    PassHead(t, p, value);
    assert t[1..] == (name + "}") + s;
    PassOver(name + "}", s, key, value);
    assert Placeholder(name) == "{" + (name + "}");
  }

  /** strings.ReplaceAll of one placeholder replaces exactly the placeholders of that name,
      whatever the text. */
  lemma {:induction false} ReplaceIsExpand(s: string, key: string, value: string)
    requires BraceFree(key)
    ensures ReplaceAll(s, Placeholder(key), value) == Expand(s, map[key := value])
    decreases |s|
  {
    hide ReplaceAll, Plain, Expand;
    var one := map[key := value];
    if s == "" {
      NothingReplaced(Placeholder(key), value);
      NothingThere(one);
    } else {
      var t := Tail(s);
      Unfold(s, one);
      ReplaceIsExpand(t, key, value);
      if Token(s) {
        if NameOf(s) == key { HitToken(key, t, value); } else { PassToken(NameOf(s), t, key, value); }
      } else {
        if |key| + 2 <= |s| { StartsWithToken(s, key); }
        PassHead(s, Placeholder(key), value);
      }
    }
  }

  lemma NothingReplaced(p: string, value: string)
    requires p != ""
    ensures ReplaceAll("", p, value) == ""
  {
  }

  // ---------------------------------------------------------------------------
  // The server's own shortcodes
  // ---------------------------------------------------------------------------

  datatype Node = Node(workPath: string)

  /** The fields of a server that shortcodes read; UUIDs are already text. */
  datatype Server = Server(
    id: nat, uuid: string, uuidShort: string, gameID: string, serverIP: string, serverPort: int,
    queryPort: Option<int>, rconPort: Option<int>, dir: string, suUser: Option<string>)

  function OptionalPort(p: Option<int>): string {
    match p
    case None => ""
    case Some(n) => Itoa(n)
  }

  function ServerValues(node: Node, s: Server): map<string, string> {
    map[
      "node_work_path" := node.workPath,
      "node_tools_path" := node.workPath + "/tools",
      "host" := s.serverIP,
      "port" := Itoa(s.serverPort),
      "query_port" := OptionalPort(s.queryPort),
      "rcon_port" := OptionalPort(s.rconPort),
      "user" := if s.suUser.Some? then s.suUser.value else "",
      "id" := Decimal(s.id),
      "uuid" := s.uuid,
      "uuid_short" := s.uuidShort,
      "game" := s.gameID,
      "dir" := s.dir
    ]
  }

  /** Lower-case letters and underscores, starting with a letter, at most fifteen. */
  predicate LowerKey(k: string) {
    && k != "" && |k| <= 15
    && 'a' <= k[0] <= 'z'
    && forall i :: 0 <= i < |k| ==> 'a' <= k[i] <= 'z' || k[i] == '_'
  }

  lemma LowerKeyFacts(k: string)
    requires LowerKey(k)
    ensures ToLower(k) == k && ToLower(ToUpper(k)) == k && !LowerKey(ToUpper(k))
    ensures BraceFree(k) && BraceFree(ToUpper(k))
  {
    assert ToUpper(k)[0] == UpperChar(k[0]);
  }

  lemma LongKeys()
    ensures LowerKey("node_work_path") && LowerKey("node_tools_path") && LowerKey("query_port")
    ensures LowerKey("rcon_port") && LowerKey("uuid_short")
  {
  }

  lemma ShortKeys()
    ensures LowerKey("host") && LowerKey("port") && LowerKey("user") && LowerKey("id")
    ensures LowerKey("uuid") && LowerKey("game") && LowerKey("dir")
  {
  }

  const SERVER_KEYS: set<string> :=
    {"node_work_path", "node_tools_path", "host", "port", "query_port", "rcon_port", "user", "id", "uuid", "uuid_short",
     "game", "dir"}

  lemma ServerKeysAreLower(node: Node, s: Server)
    ensures ServerValues(node, s).Keys == SERVER_KEYS
    ensures forall k :: k in SERVER_KEYS ==> LowerKey(k)
  {
    hide LowerKey;
    LongKeys();
    ShortKeys();
  }

  /** Each server key answers in lower and in upper case. */
  function BothCases(values: map<string, string>): map<string, string>
    requires forall k :: k in values ==> LowerKey(k)
  {
    UpperInjective(values.Keys);
    values + map k | k in values :: ToUpper(k) := values[k]
  }

  lemma UpperInjective(keys: set<string>)
    requires forall k :: k in keys ==> LowerKey(k)
    ensures forall k, k' :: k in keys && k' in keys && ToUpper(k) == ToUpper(k') ==> k == k'
    ensures forall k :: k in keys ==> ToUpper(k) !in keys
  {
    forall k | k in keys ensures ToLower(ToUpper(k)) == k && !LowerKey(ToUpper(k)) { LowerKeyFacts(k); }
  }

  /** The substitution a command stands for: extras first, then the server's own values. */
  function Environment(node: Node, s: Server, extra: map<string, string>): map<string, string> {
    ServerKeysAreLower(node, s);
    BothCases(ServerValues(node, s)) + extra
  }

  // ---------------------------------------------------------------------------
  // Walks: one replacement after another, in a given order
  // ---------------------------------------------------------------------------

  /** An order in which a map with these keys may be walked. */
  ghost predicate IsOrder(order: seq<string>, keys: set<string>) {
    && (forall k :: k in order <==> k in keys)
    && (forall i, j :: 0 <= i < j < |order| ==> order[i] != order[j])
  }

  function Walk(s: string, order: seq<string>, env: map<string, string>): string
    requires forall k :: k in order ==> k in env
  {
    if order == [] then s
    else
      var k := order[|order| - 1];
      ReplaceAll(Walk(s, order[..|order| - 1], env), Placeholder(k), env[k])
  }

  /** One server key: as it is, in lower case, in upper case. */
  function ReplaceCases(s: string, k: string, value: string): string {
    var t := ReplaceAll(ReplaceAll(s, Placeholder(k), value), Placeholder(ToLower(k)), value);
    ReplaceAll(t, Placeholder(ToUpper(k)), value)
  }

  function WalkServer(s: string, order: seq<string>, values: map<string, string>): string
    requires forall k :: k in order ==> k in values
  {
    if order == [] then s
    else
      var k := order[|order| - 1];
      ReplaceCases(WalkServer(s, order[..|order| - 1], values), k, values[k])
  }

  /** The command after walking the extras in order a and the server's values in order b. */
  function Walked(node: Node, s: Server, command: string, extra: map<string, string>, a: seq<string>, b: seq<string>)
    : string
    requires forall k :: k in a ==> k in extra
    requires forall k :: k in b ==> k in ServerValues(node, s)
  {
    WalkServer(Walk(command, a, extra), b, ServerValues(node, s))
  }

  lemma OrderSnoc(order: seq<string>, keys: set<string>, k: string)
    requires IsOrder(order, keys) && k !in keys
    ensures IsOrder(order + [k], keys + {k})
  {
  }

  /** The maps are walked in an arbitrary order: the result is that of some walk, and of an
      unnested command with brace-free keys and values the simultaneous substitution. */
  method ReplaceServerShortcodes(node: Node, s: Server, command: string, extra: map<string, string>)
    returns (r: string, ghost a: seq<string>, ghost b: seq<string>)
    ensures IsOrder(a, extra.Keys) && IsOrder(b, ServerValues(node, s).Keys)
    ensures r == Walked(node, s, command, extra, a, b)
    ensures Unnested(command) && PlainInput(node, s, extra) ==> r == Expand(command, Environment(node, s, extra))
  {
    hide ReplaceAll, ServerValues, ToUpper, ToLower, Placeholder, Unnested, PlainInput, Expand, Environment;
    r, a := command, [];
    var todo := extra.Keys;
    while todo != {}
      invariant todo <= extra.Keys && IsOrder(a, extra.Keys - todo) && r == Walk(command, a, extra)
      decreases todo
    {
      var key :| key in todo;
      r := ReplaceAll(r, Placeholder(key), extra[key]);
      OrderSnoc(a, extra.Keys - todo, key);
      assert (a + [key])[..|a|] == a;
      todo, a := todo - {key}, a + [key];
      assert extra.Keys - todo == (extra.Keys - todo - {key}) + {key};
    }
    assert extra.Keys - todo == extra.Keys;

    var values := ServerValues(node, s);
    ghost var t := r;
    var keys := values.Keys;
    b := [];
    while keys != {}
      invariant keys <= values.Keys && IsOrder(b, values.Keys - keys) && r == WalkServer(t, b, values)
      decreases keys
    {
      var key :| key in keys;
      var value := values[key];
      r := ReplaceAll(r, Placeholder(key), value);
      r := ReplaceAll(r, Placeholder(ToLower(key)), value);
      r := ReplaceAll(r, Placeholder(ToUpper(key)), value);
      OrderSnoc(b, values.Keys - keys, key);
      assert (b + [key])[..|b|] == b;
      keys, b := keys - {key}, b + [key];
      assert values.Keys - keys == (values.Keys - keys - {key}) + {key};
    }
    assert values.Keys - keys == values.Keys;
    if Unnested(command) && PlainInput(node, s, extra) { AnyOrder(node, s, command, extra, a, b); }
  }

  // ---------------------------------------------------------------------------
  // Unnested commands: the order does not matter
  // ---------------------------------------------------------------------------

  ghost predicate PlainMap(env: map<string, string>) {
    forall k :: k in env ==> BraceFree(k) && BraceFree(env[k])
  }

  function Part(env: map<string, string>, order: seq<string>): map<string, string>
    requires forall k :: k in order ==> k in env
  {
    map k | k in order :: env[k]
  }

  lemma ReplaceAfter(s: string, env: map<string, string>, key: string, value: string)
    requires Unnested(s) && PlainValues(env) && BraceFree(key) && BraceFree(value)
    ensures var r := ReplaceAll(Expand(s, env), Placeholder(key), value);
            r == Expand(s, map[key := value] + env) && Unnested(Expand(s, map[key := value] + env))
  {
    hide Expand, Names, Unnested, ReplaceAll;
    ReplaceIsExpand(Expand(s, env), key, value);
    ExpandTwice(s, env, map[key := value]);
    ExpandTwice(s, map[key := value] + env, map[]);
  }

  lemma {:induction false} WalkExpands(s: string, order: seq<string>, env: map<string, string>)
    requires Unnested(s) && PlainMap(env) && forall k :: k in order ==> k in env
    ensures Walk(s, order, env) == Expand(s, Part(env, order))
  {
    hide Expand, Unnested, ReplaceAll;
    if order == [] {
      ExpandNothing(s, Part(env, order));
    } else {
      var init, k := order[..|order| - 1], order[|order| - 1];
      WalkExpands(s, init, env);
      ReplaceAfter(s, Part(env, init), k, env[k]);
      assert order == init + [k];
      assert map[k := env[k]] + Part(env, init) == Part(env, order);
    }
  }

  lemma ExpandNothing(s: string, env: map<string, string>)
    requires env == map[]
    ensures Expand(s, env) == s
  {
    NothingToExpand(s, env);
  }

  /** What a walk of the server's values puts in place of names. */
  function Cases(values: map<string, string>, order: seq<string>): map<string, string>
    requires forall k :: k in order ==> k in values
  {
    if order == [] then map[]
    else
      var k := order[|order| - 1];
      var c := Unless(Cases(values, order[..|order| - 1]), k, values[k]);
      Unless(Unless(c, ToLower(k), values[k]), ToUpper(k), values[k])
  }

  /** A binding for one more name, unless it has one. */
  function Unless(env: map<string, string>, name: string, value: string): map<string, string> {
    map[name := value] + env
  }

  lemma UnlessFacts(env: map<string, string>, name: string, value: string)
    ensures var e := Unless(env, name, value);
            e.Keys == env.Keys + {name} && forall n :: n in e ==> e[n] == if n in env then env[n] else value
  {
  }

  /** One more key: its value under the three spellings, everything else as before. */
  lemma CasesStep(values: map<string, string>, order: seq<string>)
    requires (forall k :: k in order ==> k in values) && order != []
    ensures var init, k := order[..|order| - 1], order[|order| - 1];
            var c, c' := Cases(values, init), Cases(values, order);
            && c'.Keys == c.Keys + {k, ToLower(k), ToUpper(k)}
            && (forall n :: n in c' ==> c'[n] == if n in c then c[n] else values[k])
  {
    hide ToUpper, ToLower, Unless;
    var k := order[|order| - 1];
    var v, c := values[k], Cases(values, order[..|order| - 1]);
    var c1 := Unless(c, k, v);
    var c2 := Unless(c1, ToLower(k), v);
    UnlessFacts(c, k, v);
    UnlessFacts(c1, ToLower(k), v);
    UnlessFacts(c2, ToUpper(k), v);
  }

  lemma {:induction false} CasesFacts(values: map<string, string>, order: seq<string>)
    requires (forall k :: k in values ==> LowerKey(k)) && forall k :: k in order ==> k in values
    ensures forall n :: n in Cases(values, order) ==>
              n in BothCases(values) && Cases(values, order)[n] == BothCases(values)[n]
    ensures forall k :: k in order ==> k in Cases(values, order) && ToUpper(k) in Cases(values, order)
  {
    hide ToUpper, ToLower, LowerKey, BothCases, Cases;
    if order == [] {
      NoCases(values);
    } else {
      var init, k := order[..|order| - 1], order[|order| - 1];
      CasesFacts(values, init);
      CasesStep(values, order);
      LowerKeyFacts(k);
      BothCasesOf(values, k);
      var c, c' := Cases(values, init), Cases(values, order);
      forall n | n in c' ensures n in BothCases(values) && c'[n] == BothCases(values)[n] {
        assert n in c'.Keys;
      }
      forall x | x in order ensures x in c' && ToUpper(x) in c' {
        if x != k { assert x in init; }
      }
    }
  }

  lemma NoCases(values: map<string, string>)
    ensures Cases(values, []) == map[]
  {
  }

  lemma BothCasesOf(values: map<string, string>, k: string)
    requires (forall k :: k in values ==> LowerKey(k)) && k in values
    ensures k in BothCases(values) && BothCases(values)[k] == values[k]
    ensures ToUpper(k) in BothCases(values) && BothCases(values)[ToUpper(k)] == values[k]
  {
    UpperInjective(values.Keys);
  }

  lemma BothCasesKeys(values: map<string, string>)
    requires forall k :: k in values ==> LowerKey(k)
    ensures forall n :: n in BothCases(values) ==> n in values || exists k :: k in values && n == ToUpper(k)
  {
  }

  lemma CasesComplete(values: map<string, string>, order: seq<string>)
    requires (forall k :: k in values ==> LowerKey(k)) && IsOrder(order, values.Keys)
    ensures Cases(values, order) == BothCases(values)
  {
    hide ToUpper, LowerKey, BothCases, Cases;
    CasesFacts(values, order);
    BothCasesKeys(values);
    var c, b := Cases(values, order), BothCases(values);
    forall n | n in b ensures n in c {
      if n !in values {
        var k :| k in values && n == ToUpper(k);
        assert k in order;
      }
    }
  }

  lemma {:induction false} WalkServerExpands(s: string, order: seq<string>, values: map<string, string>)
    requires Unnested(s) && PlainValues(values)
    requires (forall k :: k in values ==> LowerKey(k)) && forall k :: k in order ==> k in values
    ensures WalkServer(s, order, values) == Expand(s, Cases(values, order)) && PlainValues(Cases(values, order))
  {
    hide Expand, Unnested, ReplaceAll, ToUpper, ToLower, LowerKey, Placeholder;
    if order == [] {
      ExpandNothing(s, map[]);
    } else {
      var init, k := order[..|order| - 1], order[|order| - 1];
      WalkServerExpands(s, init, values);
      LowerKeyFacts(k);
      var v, c := values[k], Cases(values, init);
      var c1 := Unless(c, k, v);
      var c2 := Unless(c1, ToLower(k), v);
      ReplaceAfter(s, c, k, v);
      ReplaceAfter(s, c1, ToLower(k), v);
      ReplaceAfter(s, c2, ToUpper(k), v);
    }
  }

  /** Keys of the extras and all values without braces. */
  ghost predicate PlainInput(node: Node, s: Server, extra: map<string, string>) {
    PlainMap(extra) && PlainValues(ServerValues(node, s))
  }

  /** An unnested command with brace-free keys and values expands, in every order of both
      maps, to the simultaneous substitution with extras taking priority. */
  lemma AnyOrder(node: Node, s: Server, command: string, extra: map<string, string>, a: seq<string>, b: seq<string>)
    requires Unnested(command) && PlainInput(node, s, extra)
    requires IsOrder(a, extra.Keys) && IsOrder(b, ServerValues(node, s).Keys)
    ensures Walked(node, s, command, extra, a, b) == Expand(command, Environment(node, s, extra))
  {
    hide Expand, Unnested, Walk, WalkServer, Cases, ServerValues, BothCases, LowerKey;
    var values := ServerValues(node, s);
    ServerKeysAreLower(node, s);
    WalkExpands(command, a, extra);
    assert Part(extra, a) == extra;
    ExpandTwice(command, extra, BothCases(values));
    WalkServerExpands(Expand(command, extra), b, values);
    CasesComplete(values, b);
  }

  /** A command that is one placeholder becomes this text, whatever the orders. */
  ghost predicate Becomes(node: Node, s: Server, extra: map<string, string>, name: string, text: string) {
    forall a, b :: IsOrder(a, extra.Keys) && IsOrder(b, ServerValues(node, s).Keys) ==>
      Walked(node, s, Placeholder(name), extra, a, b) == text
  }

  /** One placeholder in the command stands for its value, in every order. */
  lemma PlaceholderBecomes(node: Node, s: Server, extra: map<string, string>, name: string)
    requires PlainInput(node, s, extra) && BraceFree(name)
    ensures var env := Environment(node, s, extra);
            Becomes(node, s, extra, name, if name in env then env[name] else Placeholder(name))
  {
    hide Expand, Unnested, Environment, Walked, PlainInput, Placeholder;
    var env := Environment(node, s, extra);
    TokenFacts(name, "", env);
    NothingThere(env);
    var p := Placeholder(name);
    assert p + "" == p;
    EmptyUnnested();
    assert (if name in env then env[name] else p) + "" == if name in env then env[name] else p;
    forall a, b | IsOrder(a, extra.Keys) && IsOrder(b, ServerValues(node, s).Keys)
      ensures Walked(node, s, p, extra, a, b) == Expand(p, env)
    {
      AnyOrder(node, s, p, extra, a, b);
    }
  }

  lemma EmptyUnnested()
    ensures Unnested("")
  {
  }

  /** The name, in lower and in upper case, shows the text unless an extra has the name. */
  ghost predicate Shows(node: Node, s: Server, extra: map<string, string>, lower: string, upper: string, text: string) {
    && Becomes(node, s, extra, lower, if lower in extra then extra[lower] else text)
    && Becomes(node, s, extra, upper, if upper in extra then extra[upper] else text)
  }

  lemma ServerKeyShows(node: Node, s: Server, extra: map<string, string>, k: string)
    requires PlainInput(node, s, extra) && k in ServerValues(node, s)
    ensures Shows(node, s, extra, k, ToUpper(k), ServerValues(node, s)[k])
  {
    hide Becomes, PlainInput, ServerValues, ToUpper, ToLower, LowerKey, BothCases, SERVER_KEYS;
    ServerKeysAreLower(node, s);
    LowerKeyFacts(k);
    BothCasesOf(ServerValues(node, s), k);
    PlaceholderBecomes(node, s, extra, k);
    PlaceholderBecomes(node, s, extra, ToUpper(k));
  }

  lemma LongUpper()
    ensures ToUpper("node_work_path") == "NODE_WORK_PATH" && ToUpper("node_tools_path") == "NODE_TOOLS_PATH"
    ensures ToUpper("query_port") == "QUERY_PORT" && ToUpper("rcon_port") == "RCON_PORT"
    ensures ToUpper("uuid_short") == "UUID_SHORT"
  {
  }

  lemma ShortUpper()
    ensures ToUpper("host") == "HOST" && ToUpper("port") == "PORT" && ToUpper("user") == "USER"
    ensures ToUpper("id") == "ID" && ToUpper("uuid") == "UUID" && ToUpper("game") == "GAME" && ToUpper("dir") == "DIR"
  {
  }

  /** Which field each shortcode shows. */
  lemma ServerShows(node: Node, s: Server, extra: map<string, string>)
    requires PlainInput(node, s, extra)
    ensures Shows(node, s, extra, "node_work_path", "NODE_WORK_PATH", node.workPath)
    ensures Shows(node, s, extra, "node_tools_path", "NODE_TOOLS_PATH", node.workPath + "/tools")
    ensures Shows(node, s, extra, "host", "HOST", s.serverIP)
    ensures Shows(node, s, extra, "port", "PORT", Itoa(s.serverPort))
    ensures Shows(node, s, extra, "query_port", "QUERY_PORT", if s.queryPort.Some? then Itoa(s.queryPort.value) else "")
    ensures Shows(node, s, extra, "rcon_port", "RCON_PORT", if s.rconPort.Some? then Itoa(s.rconPort.value) else "")
    ensures Shows(node, s, extra, "user", "USER", if s.suUser.Some? then s.suUser.value else "")
    ensures Shows(node, s, extra, "id", "ID", Decimal(s.id))
    ensures Shows(node, s, extra, "uuid", "UUID", s.uuid)
    ensures Shows(node, s, extra, "uuid_short", "UUID_SHORT", s.uuidShort)
    ensures Shows(node, s, extra, "game", "GAME", s.gameID)
    ensures Shows(node, s, extra, "dir", "DIR", s.dir)
  {
    hide Shows, PlainInput, ToUpper;
    LongUpper();
    ShortUpper();
    ServerKeyShows(node, s, extra, "node_work_path");
    ServerKeyShows(node, s, extra, "node_tools_path");
    ServerKeyShows(node, s, extra, "host");
    ServerKeyShows(node, s, extra, "port");
    ServerKeyShows(node, s, extra, "query_port");
    ServerKeyShows(node, s, extra, "rcon_port");
    ServerKeyShows(node, s, extra, "user");
    ServerKeyShows(node, s, extra, "id");
    ServerKeyShows(node, s, extra, "uuid");
    ServerKeyShows(node, s, extra, "uuid_short");
    ServerKeyShows(node, s, extra, "game");
    ServerKeyShows(node, s, extra, "dir");
  }

  // ---------------------------------------------------------------------------
  // Nested commands: the order shows
  // ---------------------------------------------------------------------------

  /** Placeholders and other text without braces. */
  predicate Flat(s: string)
    decreases |s|
  {
    s == "" || ((Token(s) || (s[0] != '{' && s[0] != '}')) && Flat(Tail(s)))
  }

  lemma FlatToken(name: string, s: string)
    requires BraceFree(name) && Flat(s)
    ensures Flat(Placeholder(name) + s)
  {
    TokenFront(name, s);
  }

  lemma FlatChar(c: char, s: string)
    requires c != '{' && c != '}' && Flat(s)
    ensures Flat([c] + s)
  {
    CharFront(c, s);
  }

  lemma {:induction false} FlatFacts(s: string)
    requires Flat(s)
    ensures Unnested(s)
    ensures BraceFree(s) <==> Names(s) == {}
    ensures !BraceFree(s) ==> Plain(s) < |s| && s[Plain(s)] == '{'
    decreases |s|
  {
    if s != "" {
      FlatFacts(Tail(s));
      if !Token(s) { assert s[1..] == Tail(s) && s == [s[0]] + Tail(s); }
    }
  }

  lemma {:induction false} ClosesLess(s: string, d: nat)
    ensures Closes(s, d + 1) ==> Closes(s, d)
  {
    if s != "" {
      ClosesLess(s[1..], d + 1);
      ClosesLess(s[1..], d);
      if d > 0 { ClosesLess(s[1..], d - 1); }
    }
  }

  /** Up to the closing brace that matches one outside, an unnested text is flat. */
  lemma {:induction false} CloseSplit(t: string) returns (mid: string, post: string)
    requires Unnested(t) && Closes(t, 0)
    ensures t == mid + ("}" + post) && Flat(mid)
    decreases |t|
  {
    hide Plain, Flat;
    ClosesLess(t[1..], 0);
    if t[0] == '}' {
      mid, post := "", t[1..];
      FlatEmpty();
    } else if Token(t) {
      ClosesToken(NameOf(t), Tail(t), 0);
      mid, post := CloseSplit(Tail(t));
      FlatToken(NameOf(t), mid);
      Assoc(Head(t), mid, "}" + post);
      mid := Head(t) + mid;
    } else {
      assert t[0] != '{' && t[1..] == Tail(t);
      mid, post := CloseSplit(Tail(t));
      FlatChar(t[0], mid);
      Assoc(Head(t), mid, "}" + post);
      mid := Head(t) + mid;
    }
  }

  lemma FlatEmpty()
    ensures Flat("")
  {
  }

  lemma PairIsToken(mid: string, post: string)
    ensures BraceFree(mid) ==> Token("{" + (mid + ("}" + post)))
  {
    if BraceFree(mid) {
      TokenFront(mid, post);
      assert "{" + (mid + ("}" + post)) == Placeholder(mid) + post;
    }
  }

  /** A text that is not unnested has a pair of braces around placeholders and plain text. */
  lemma {:induction false} FindNest(s: string) returns (pre: string, mid: string, post: string)
    requires !Unnested(s)
    ensures s == pre + ("{" + (mid + ("}" + post))) && Flat(mid) && Names(mid) != {}
    decreases |s|
  {
    hide Plain, Names, Flat;
    if !Unnested(Tail(s)) {
      pre, mid, post := FindNest(Tail(s));
      Assoc(Head(s), pre, "{" + (mid + ("}" + post)));
      pre := Head(s) + pre;
    } else {
      assert s[1..] == Tail(s);
      mid, post := CloseSplit(s[1..]);
      pre := "";
      FlatFacts(mid);
      PairIsToken(mid, post);
      assert s == "{" + (mid + ("}" + post));
    }
  }

  lemma FirstBraceKept(u: string, y: string)
    requires Plain(u) == |u| || u[Plain(u)] == '{'
    ensures var z := u + ("{" + y); Plain(z) < |z| && z[Plain(z)] == '{'
  {
    var n := Plain(u);
    var z := u + ("{" + y);
    assert z == u[..n] + z[n..];
    PlainOf(u[..n], z[n..]);
  }

  /** Nothing reaches across an opening brace from the left. */
  lemma {:induction false} SplitOpen(x: string, y: string, env: map<string, string>)
    ensures Expand(x + ("{" + y), env) == Expand(x, env) + Expand("{" + y, env)
    ensures Names(x + ("{" + y)) == Names(x) + Names("{" + y)
    decreases |x|
  {
    hide Expand, Names, Token, NameOf, Piece;
    var z := "{" + y;
    if x == "" {
      assert x + z == z;
      NothingThere(env);
    } else {
      var t := Tail(x);
      Unfold(x, env);
      SplitOpen(t, y, env);
      SplitPiece(x, y, env);
      Assoc(Head(x), t, z);
      Assoc(Piece(x, env), Expand(t, env), Expand(z, env));
    }
  }

  lemma SplitPiece(x: string, y: string, env: map<string, string>)
    requires x != ""
    ensures var z := Head(x) + (Tail(x) + ("{" + y));
            && Expand(z, env) == Piece(x, env) + Expand(Tail(x) + ("{" + y), env)
            && Names(z) == (if Token(x) then {NameOf(x)} else {}) + Names(Tail(x) + ("{" + y))
  {
    hide Expand, Names;
    var t := Tail(x) + ("{" + y);
    if Token(x) {
      TokenFacts(NameOf(x), t, env);
    } else if x[0] != '{' {
      CharFacts(x[0], t, env);
    } else {
      assert x[1..] == Tail(x);
      FirstBraceKept(Tail(x), y);
      OpenFacts(t, env);
    }
  }

  lemma {:induction false} FlatSplit(mid: string, rest: string, env: map<string, string>)
    requires Flat(mid)
    ensures Expand(mid + rest, env) == Expand(mid, env) + Expand(rest, env)
    decreases |mid|
  {
    hide Plain, Names, Expand, Piece;
    if mid == "" {
      assert mid + rest == rest;
      NothingThere(env);
    } else {
      Unfold(mid, env);
      FlatSplit(Tail(mid), rest, env);
      FlatSplitPiece(mid, rest, env);
      Assoc(Head(mid), Tail(mid), rest);
      Assoc(Piece(mid, env), Expand(Tail(mid), env), Expand(rest, env));
    }
  }

  lemma FlatSplitPiece(mid: string, rest: string, env: map<string, string>)
    requires mid != "" && (Token(mid) || mid[0] != '{')
    ensures Expand(Head(mid) + (Tail(mid) + rest), env) == Piece(mid, env) + Expand(Tail(mid) + rest, env)
  {
    hide Plain, Names, Expand;
    var t := Tail(mid) + rest;
    if Token(mid) { TokenFacts(NameOf(mid), t, env); } else { CharFacts(mid[0], t, env); }
  }

  lemma {:induction false} FlatExpand(s: string, env: map<string, string>)
    requires Flat(s) && PlainValues(env)
    ensures Flat(Expand(s, env))
    decreases |s|
  {
    hide Plain, Expand;
    if s == "" {
      NothingThere(env);
    } else {
      Unfold(s, env);
      FlatExpand(Tail(s), env);
      FlatPiece(s, env, Expand(Tail(s), env));
    }
  }

  lemma FlatPiece(s: string, env: map<string, string>, r: string)
    requires s != "" && (Token(s) || (s[0] != '{' && s[0] != '}')) && PlainValues(env) && Flat(r)
    ensures Flat(Piece(s, env) + r)
  {
    hide Flat, Plain;
    if !Token(s) {
      FlatChar(s[0], r);
    } else if NameOf(s) in env {
      FlatFront(env[NameOf(s)], r);
    } else {
      FlatToken(NameOf(s), r);
    }
  }

  lemma {:induction false} FlatFront(v: string, s: string)
    requires BraceFree(v) && Flat(s)
    ensures Flat(v + s)
  {
    hide Flat;
    if v == "" {
      assert v + s == s;
    } else {
      assert v + s == [v[0]] + (v[1..] + s);
      FlatFront(v[1..], s);
      FlatChar(v[0], v[1..] + s);
    }
  }

  /** One expansion works inside and outside the pair, as long as the pair is not itself the
      placeholder that is replaced. */
  lemma NestStep(pre: string, mid: string, post: string, env: map<string, string>)
    requires Flat(mid) && (BraceFree(mid) ==> mid !in env)
    ensures Expand(pre + ("{" + (mid + ("}" + post))), env) ==
            Expand(pre, env) + ("{" + (Expand(mid, env) + ("}" + Expand(post, env))))
  {
    hide Expand, Names, Flat;
    SplitOpen(pre, mid + ("}" + post), env);
    if BraceFree(mid) { PlainPair(mid, post, env); } else { FlatPair(mid, post, env); }
  }

  lemma PairText(mid: string, post: string)
    ensures "{" + (mid + ("}" + post)) == Placeholder(mid) + post
  {
  }

  lemma PlainPair(mid: string, post: string, env: map<string, string>)
    requires BraceFree(mid) && mid !in env
    ensures Expand("{" + (mid + ("}" + post)), env) == "{" + (Expand(mid, env) + ("}" + Expand(post, env)))
  {
    hide Expand, Names, Unnested, Placeholder;
    PairText(mid, post);
    PairText(mid, Expand(post, env));
    TokenFacts(mid, post, env);
    PlainExpand(mid, env);
  }

  lemma FlatPair(mid: string, post: string, env: map<string, string>)
    requires Flat(mid) && !BraceFree(mid)
    ensures Expand("{" + (mid + ("}" + post)), env) == "{" + (Expand(mid, env) + ("}" + Expand(post, env)))
  {
    hide Expand, Names, Unnested, Flat, Plain;
    var rest := "}" + post;
    FlatFacts(mid);
    FirstStays(mid, rest);
    OpenFacts(mid + rest, env);
    FlatSplit(mid, rest, env);
    CharFacts('}', post, env);
  }

  lemma PlainExpand(v: string, env: map<string, string>)
    requires BraceFree(v)
    ensures Expand(v, env) == v
  {
    assert v + "" == v;
    PlainFacts(v, "", env);
  }

  lemma FirstStays(u: string, rest: string)
    requires Plain(u) < |u| && u[Plain(u)] == '{'
    ensures var z := u + rest; Plain(z) < |z| && z[Plain(z)] == '{'
  {
    var n := Plain(u);
    assert u + rest == u[..n] + (u[n..] + rest);
    PlainOf(u[..n], u[n..] + rest);
  }

  /** All values the same. */
  ghost predicate Constant(env: map<string, string>, v: string) { forall k :: k in env ==> env[k] == v }

  /** With a value put in, the text is at least as long as the value. */
  lemma {:induction false} ExpandLength(s: string, env: map<string, string>, v: string)
    requires Constant(env, v)
    ensures Names(s) * env.Keys != {} ==> |Expand(s, env)| >= |v|
    decreases |s|
  {
    hide Plain, Token, NameOf;
    if s != "" { ExpandLength(Tail(s), env, v); }
  }

  /** Where a flat text with names has become plain, it holds a value. */
  lemma PlainIsLong(mid: string, env: map<string, string>, v: string)
    requires Flat(mid) && Names(mid) != {} && Constant(env, v) && BraceFree(v)
    ensures BraceFree(Expand(mid, env)) ==> |Expand(mid, env)| >= |v|
  {
    hide Expand, Names, Flat;
    FlatFacts(mid);
    FlatExpand(mid, env);
    FlatFacts(Expand(mid, env));
    ExpandTwice(mid, env, map[]);
    ExpandLength(mid, env, v);
  }

  function Nest(pre: string, mid: string, post: string): string { pre + ("{" + (mid + ("}" + post))) }

  /** One replacement during such a walk. */
  lemma WalkNestStep(pre: string, mid: string, post: string, env: map<string, string>, v: string, k: string)
    requires Flat(mid) && Names(mid) != {} && Constant(env, v) && BraceFree(v) && BraceFree(k) && |k| < |v|
    ensures var one := map[k := v];
            ReplaceAll(Nest(pre, Expand(mid, env), post), Placeholder(k), v) ==
            Nest(Expand(pre, one), Expand(mid, one + env), Expand(post, one))
  {
    hide Expand, Names, Flat, ReplaceAll;
    var one, m := map[k := v], Expand(mid, env);
    ReplaceIsExpand(Nest(pre, m, post), k, v);
    FlatExpand(mid, env);
    PlainIsLong(mid, env, v);
    NestStep(pre, m, post, one);
    FlatFacts(mid);
    ExpandTwice(mid, env, one);
  }

  /** The nested pair during a walk whose keys are shorter than the value they all have. */
  lemma {:induction false} WalkNest(pre: string, mid: string, post: string, order: seq<string>, env: map<string, string>,
                                    v: string)
    returns (pre': string, post': string)
    requires Flat(mid) && Names(mid) != {} && PlainMap(env) && Constant(env, v) && BraceFree(v)
    requires forall k :: k in order ==> k in env && |k| < |v|
    ensures Walk(Nest(pre, mid, post), order, env) == Nest(pre', Expand(mid, Part(env, order)), post')
  {
    hide Expand, Names, Flat, ReplaceAll, Nest, Placeholder;
    if order == [] {
      pre', post' := pre, post;
      ExpandNothing(mid, Part(env, order));
    } else {
      var init, k := order[..|order| - 1], order[|order| - 1];
      assert order == init + [k];
      pre', post' := WalkNest(pre, mid, post, init, env, v);
      WalkNestStep(pre', mid, post', Part(env, init), v, k);
      assert map[k := v] + Part(env, init) == Part(env, order);
      pre', post' := Expand(pre', map[k := v]), Expand(post', map[k := v]);
    }
  }

  // Names after a replacement

  lemma OpenNames(r: string)
    ensures Names("{" + r) <= Names(r) + (if Token("{" + r) then {NameOf("{" + r)} else {})
  {
    var t := "{" + r;
    assert t[1..] == r;
    if Token(t) {
      var u := NameOf(t);
      assert r == (u + "}") + Tail(t);
      PlainFacts(u + "}", Tail(t), map[]);
    }
  }

  /** A pair that becomes a placeholder has the value inside. */
  lemma NewNameIsLong(t: string, q: string, v: string)
    requires !Token("{" + t) && BraceFree(v)
    ensures var r := "{" + Expand(t, map[q := v]); Token(r) ==> |NameOf(r)| >= |v|
  {
    hide Expand, Names, Plain, Unnested, Token, NameOf;
    var e := map[q := v];
    FirstOpens(t);
    var n := Plain(t);
    var w, x := t[..n], t[n..];
    assert t == w + x;
    PlainFacts(w, x, e);
    if x == "" {
      PlainExpand(t, e);
    } else {
      ExpandOpening(x, q, v);
      var y := Expand(x, e);
      if Token(x) && NameOf(x) == q {
        var z := Expand(Tail(x), e);
        assert w + (v + z) == w + v + z;
        NameAfterPlain(w + v, z);
      } else {
        assert y == "{" + y[1..];
        OpenAfterPlain(w, y[1..]);
      }
    }
  }

  lemma FirstOpens(t: string)
    requires !Token("{" + t)
    ensures Plain(t) == |t| || t[Plain(t)] == '{'
  {
    assert ("{" + t)[1..] == t;
  }

  /** A name starts with the plain text after its brace. */
  lemma NameAfterPlain(w: string, z: string)
    requires BraceFree(w)
    ensures var r := "{" + (w + z); Token(r) ==> |NameOf(r)| >= |w|
  {
    assert ("{" + (w + z))[1..] == w + z;
    LongPrefix(w, z);
  }

  lemma OpenAfterPlain(w: string, z: string)
    requires BraceFree(w)
    ensures !Token("{" + (w + ("{" + z)))
  {
    assert ("{" + (w + ("{" + z)))[1..] == w + ("{" + z);
    PlainOf(w, "{" + z);
  }

  lemma ExpandOpening(x: string, q: string, v: string)
    requires x != "" && x[0] == '{'
    ensures var r := Expand(x, map[q := v]);
            if Token(x) && NameOf(x) == q then r == v + Expand(Tail(x), map[q := v]) else r != "" && r[0] == '{'
  {
  }

  lemma {:induction false} LongPrefix(w: string, s: string)
    requires BraceFree(w)
    ensures Plain(w + s) >= |w|
  {
    if w != "" {
      assert (w + s)[1..] == w[1..] + s;
      LongPrefix(w[1..], s);
    }
  }

  lemma {:induction false} NamesAfter(s: string, q: string, v: string, n: string)
    requires BraceFree(v) && n in Names(Expand(s, map[q := v]))
    ensures (n in Names(s) && n != q) || |n| >= |v|
    decreases |s|
  {
    hide Plain;
    if s != "" {
      var e := map[q := v];
      var t, r := Tail(s), Expand(Tail(s), e);
      if Token(s) {
        if NameOf(s) == q { PlainFacts(v, r, e); } else { TokenFacts(NameOf(s), r, e); }
      } else if s[0] != '{' {
        CharFacts(s[0], r, e);
      } else {
        assert s == "{" + t;
        OpenNames(r);
        NewNameIsLong(t, q, v);
      }
      if n in Names(r) { NamesAfter(t, q, v, n); }
    }
  }

  lemma {:induction false} WalkNames(s: string, order: seq<string>, env: map<string, string>, v: string, n: string)
    requires PlainMap(env) && Constant(env, v) && BraceFree(v) && forall k :: k in order ==> k in env
    requires n in Names(Walk(s, order, env))
    ensures (n in Names(s) && n !in order) || |n| >= |v|
  {
    hide Expand, Names, ReplaceAll;
    if order != [] {
      var init, k := order[..|order| - 1], order[|order| - 1];
      var t := Walk(s, init, env);
      ReplaceIsExpand(t, k, env[k]);
      NamesAfter(t, k, v, n);
      if n in Names(t) && n != k { WalkNames(s, init, env, v, n); }
      assert order == init + [k];
    }
  }

  lemma {:induction false} NameFacts(s: string, n: string)
    requires n in Names(s)
    ensures BraceFree(n) && |n| < |s|
    decreases |s|
  {
    hide Plain;
    if n in Names(Tail(s)) { NameFacts(Tail(s), n); }
  }

  /** Replacing a placeholder by something shorter shortens the text. */
  lemma {:induction false} Shortens(s: string, q: string, v: string)
    requires |v| <= |q| + 1
    ensures |Expand(s, map[q := v])| <= |s|
    ensures q in Names(s) ==> |Expand(s, map[q := v])| < |s|
    decreases |s|
  {
    hide Plain;
    if s != "" { Shortens(Tail(s), q, v); }
  }

  // Two orders with two results

  lemma {:induction false} Enumerate(keys: set<string>) returns (order: seq<string>)
    ensures IsOrder(order, keys)
    decreases keys
  {
    if keys == {} {
      order := [];
    } else {
      var k :| k in keys;
      order := Enumerate(keys - {k});
      OrderSnoc(order, keys - {k}, k);
      order := order + [k];
      assert keys - {k} + {k} == keys;
    }
  }

  lemma {:induction false} WalkCons(s: string, k: string, order: seq<string>, env: map<string, string>)
    requires k in env && forall x :: x in order ==> x in env
    ensures Walk(s, [k] + order, env) == Walk(ReplaceAll(s, Placeholder(k), env[k]), order, env)
    decreases |order|
  {
    hide ReplaceAll, Placeholder;
    if order == [] {
      assert [k] + order == [k] && [k][..0] == [];
    } else {
      var init := order[..|order| - 1];
      assert ([k] + order)[..|order|] == [k] + init;
      WalkCons(s, k, init, env);
    }
  }

  ghost function ServerNames(): set<string> { SERVER_KEYS + (set k | k in SERVER_KEYS :: ToUpper(k)) }

  lemma ServerNamesFacts()
    ensures forall k :: k in ServerNames() ==> BraceFree(k) && |k| <= 15
    ensures forall k :: k in SERVER_KEYS ==> k in ServerNames() && ToLower(k) in ServerNames() && ToUpper(k) in ServerNames()
  {
    hide ToUpper, ToLower, ServerValues;
    ServerKeysAreLower(Node(""), Server(0, "", "", "", "", 0, None, None, "", None));
    forall k | k in SERVER_KEYS ensures BraceFree(k) && BraceFree(ToUpper(k)) && ToLower(k) == k && |k| <= 15 {
      LowerKeyFacts(k);
    }
  }

  /** The server's values do nothing to a text without their names. */
  lemma {:induction false} ServerIdle(t: string, order: seq<string>, values: map<string, string>)
    requires Names(t) !! ServerNames()
    requires forall k :: k in order ==> k in values && k in SERVER_KEYS
    ensures WalkServer(t, order, values) == t
  {
    hide ReplaceAll, Names, ToUpper, ToLower, Placeholder;
    if order != [] {
      var init, k := order[..|order| - 1], order[|order| - 1];
      ServerIdle(t, init, values);
      ServerNamesFacts();
      ReplaceAbsent(t, k, values[k]);
      ReplaceAbsent(t, ToLower(k), values[k]);
      ReplaceAbsent(t, ToUpper(k), values[k]);
    }
  }

  lemma ReplaceAbsent(t: string, k: string, value: string)
    requires BraceFree(k) && k !in Names(t)
    ensures ReplaceAll(t, Placeholder(k), value) == t
  {
    hide ReplaceAll, Names, Expand;
    ReplaceIsExpand(t, k, value);
    NothingToExpand(t, map[k := value]);
  }

  lemma PairNamed(pre: string, key: string, post: string)
    requires BraceFree(key)
    ensures key in Names(Nest(pre, key, post))
  {
    hide Names, Expand, Unnested;
    assert "{" + (key + ("}" + post)) == Placeholder(key) + post;
    SplitOpen(pre, key + ("}" + post), map[]);
    TokenFacts(key, post, map[]);
  }

  lemma BecomesPlain(mid: string, env: map<string, string>, v: string)
    requires Flat(mid) && Names(mid) != {} && Constant(env, v) && BraceFree(v) && Names(mid) <= env.Keys
    ensures BraceFree(Expand(mid, env)) && |Expand(mid, env)| >= |v|
  {
    hide Expand, Names, Flat;
    FlatFacts(mid);
    FlatExpand(mid, env);
    FlatFacts(Expand(mid, env));
    ExpandTwice(mid, env, map[]);
    PlainIsLong(mid, env, v);
  }

  /** After all names inside it the pair has become a placeholder. */
  lemma BeforeLast(pre: string, mid: string, post: string, order: seq<string>, env: map<string, string>, v: string)
    requires Flat(mid) && Names(mid) != {} && PlainMap(env) && Constant(env, v) && BraceFree(v)
    requires forall k :: k in order ==> k in env && |k| < |v|
    requires forall k :: k in Names(mid) ==> k in order
    ensures Expand(mid, Part(env, order)) in Names(Walk(Nest(pre, mid, post), order, env))
  {
    hide Expand, Names, Flat, Walk, Nest;
    var e := Part(env, order);
    BecomesPlain(mid, e, v);
    var pre', post' := WalkNest(pre, mid, post, order, env, v);
    PairNamed(pre', Expand(mid, e), post');
  }

  /** With the longest key last or first, everything else alike, the texts differ. */
  lemma LastMatters(s: string, order: seq<string>, env: map<string, string>, v: string, key: string)
    requires PlainMap(env) && Constant(env, v) && BraceFree(v) && key in env
    requires (forall k :: k in order ==> k in env) && key !in Names(s) && |key| >= |v|
    requires key in Names(Walk(s, order, env))
    ensures Walk(s, [key] + order, env) == Walk(s, order, env)
    ensures |Walk(s, order + [key], env)| < |Walk(s, order, env)|
  {
    hide Expand, Names, ReplaceAll, Placeholder;
    WalkCons(s, key, order, env);
    ReplaceAbsent(s, key, v);
    assert (order + [key])[..|order|] == order;
    ReplaceIsExpand(Walk(s, order, env), key, v);
    Shortens(Walk(s, order, env), key, v);
  }

  /** A walk that visits every server key leaves none of them. */
  lemma NoServerNames(s: string, order: seq<string>, env: map<string, string>, v: string)
    requires PlainMap(env) && Constant(env, v) && BraceFree(v) && |v| > 15
    requires (forall k :: k in order ==> k in env) && forall k :: k in ServerNames() ==> k in order
    ensures Names(Walk(s, order, env)) !! ServerNames()
  {
    hide Names, Walk, ServerNames, PlainMap;
    ServerNamesFacts();
    forall n | n in Names(Walk(s, order, env)) ensures n !in ServerNames() { WalkNames(s, order, env, v, n); }
  }

  function Filler(n: nat): (v: string)
    ensures |v| == n && BraceFree(v)
  {
    seq(n, _ => 'x')
  }

  function Same(keys: set<string>, v: string): map<string, string> { map k | k in keys :: v }

  /** The extras: every name inside the pair, every server key, and what the pair becomes. */
  lemma ChooseExtras(command: string, mid: string, v: string, base: set<string>) returns (key: string)
    requires Flat(mid) && Names(mid) != {} && |mid| <= |command| && |v| == |command| + 16 && BraceFree(v)
    requires base == Names(mid) + ServerNames()
    ensures forall k :: k in base ==> BraceFree(k) && |k| < |v|
    ensures key == Expand(mid, Same(base, v)) && BraceFree(key) && |key| >= |v| && key !in base
    ensures key !in Names(command) && PlainMap(Same(base + {key}, v))
  {
    hide Expand, Names, Flat, ServerNames, PlainMap;
    BaseNames(mid, base, |v|);
    key := Expand(mid, Same(base, v));
    BecomesPlain(mid, Same(base, v), v);
    NewKey(command, key, v);
    PlainSame(base + {key}, v);
  }

  lemma BaseNames(mid: string, base: set<string>, n: nat)
    requires base == Names(mid) + ServerNames() && |mid| + 16 <= n
    ensures forall k :: k in base ==> BraceFree(k) && |k| < n
  {
    hide Names, ServerNames;
    ServerNamesFacts();
    forall k | k in base ensures BraceFree(k) && |k| < n { if k in Names(mid) { NameFacts(mid, k); } }
  }

  lemma PlainSame(keys: set<string>, v: string)
    requires BraceFree(v) && forall k :: k in keys ==> BraceFree(k)
    ensures PlainMap(Same(keys, v))
  {
  }

  lemma TwoWalks(pre: string, mid: string, post: string, order: seq<string>, key: string, v: string)
    requires var base := Names(mid) + ServerNames();
             && Flat(mid) && Names(mid) != {} && BraceFree(v) && |v| > 15
             && IsOrder(order, base) && (forall k :: k in base ==> |k| < |v|)
             && key == Expand(mid, Same(base, v)) && |key| >= |v| && key !in base
             && key !in Names(Nest(pre, mid, post)) && PlainMap(Same(base + {key}, v))
    ensures var s, extra := Nest(pre, mid, post), Same(Names(mid) + ServerNames() + {key}, v);
            && Walk(s, [key] + order, extra) != Walk(s, order + [key], extra)
            && Names(Walk(s, [key] + order, extra)) !! ServerNames()
            && Names(Walk(s, order + [key], extra)) !! ServerNames()
  {
    hide Expand, Names, Flat, Walk, ServerNames, PlainMap, Nest;
    var s, base := Nest(pre, mid, post), Names(mid) + ServerNames();
    var extra := Same(base + {key}, v);
    assert Part(extra, order) == Same(base, v);
    BeforeLast(pre, mid, post, order, extra, v);
    LastMatters(s, order, extra, v, key);
    NoServerNames(s, [key] + order, extra, v);
    NoServerNames(s, order + [key], extra, v);
  }

  /** A command with a nested pair has brace-free extras and two orders of them after which
      the results differ, whatever the server's values and their order. */
  lemma NestedDependsOnOrder(command: string) returns (extra: map<string, string>, a: seq<string>, b: seq<string>)
    requires !Unnested(command)
    ensures PlainMap(extra) && IsOrder(a, extra.Keys) && IsOrder(b, extra.Keys)
    ensures forall node, s, order :: IsOrder(order, ServerValues(node, s).Keys) ==>
              Walked(node, s, command, extra, a, order) != Walked(node, s, command, extra, b, order)
  {
    hide Expand, Names, Flat, Unnested, Walk, ServerNames, PlainMap, Walked, ServerValues;
    var pre, mid, post := FindNest(command);
    assert command == Nest(pre, mid, post);
    var v := Filler(|command| + 16);
    var base := Names(mid) + ServerNames();
    var key := ChooseExtras(command, mid, v, base);
    var order := Enumerate(base);
    TwoWalks(pre, mid, post, order, key, v);
    extra, a, b := Same(base + {key}, v), [key] + order, order + [key];
    Ordered(order, base, key, extra);
    forall node, s, o | IsOrder(o, ServerValues(node, s).Keys)
      ensures Walked(node, s, command, extra, a, o) != Walked(node, s, command, extra, b, o)
    {
      ServerStaysIdle(node, s, command, extra, a, o);
      ServerStaysIdle(node, s, command, extra, b, o);
    }
  }

  lemma ServerStaysIdle(node: Node, s: Server, command: string, extra: map<string, string>, a: seq<string>,
                        order: seq<string>)
    requires IsOrder(a, extra.Keys) && IsOrder(order, ServerValues(node, s).Keys)
    requires Names(Walk(command, a, extra)) !! ServerNames()
    ensures Walked(node, s, command, extra, a, order) == Walk(command, a, extra)
  {
    hide Names, Walk, ServerNames, ServerValues;
    ServerKeysAreLower(node, s);
    ServerIdle(Walk(command, a, extra), order, ServerValues(node, s));
  }

  lemma NewKey(command: string, key: string, v: string)
    requires |key| >= |v| > |command|
    ensures key !in Names(command)
  {
    if key in Names(command) { NameFacts(command, key); }
  }

  lemma Ordered(order: seq<string>, base: set<string>, key: string, extra: map<string, string>)
    requires IsOrder(order, base) && key !in base && extra.Keys == base + {key}
    ensures IsOrder([key] + order, extra.Keys) && IsOrder(order + [key], extra.Keys)
  {
    OrderSnoc(order, base, key);
  }

  /** The results of all walks agree, for all brace-free keys and values, exactly when no
      matched pair of braces in the command contains another one. */
  lemma OrderIndependentExactly(command: string)
    ensures Unnested(command) <==>
            forall node, s, extra, a, b, c, d ::
              PlainInput(node, s, extra) && IsOrder(a, extra.Keys) && IsOrder(b, extra.Keys) &&
              IsOrder(c, ServerValues(node, s).Keys) && IsOrder(d, ServerValues(node, s).Keys) ==>
                Walked(node, s, command, extra, a, c) == Walked(node, s, command, extra, b, d)
  {
    hide Expand, Unnested, Walk, WalkServer, ServerValues, PlainInput, Walked;
    if Unnested(command) {
      forall node, s, extra, a, b, c, d |
        PlainInput(node, s, extra) && IsOrder(a, extra.Keys) && IsOrder(b, extra.Keys) &&
        IsOrder(c, ServerValues(node, s).Keys) && IsOrder(d, ServerValues(node, s).Keys)
        ensures Walked(node, s, command, extra, a, c) == Walked(node, s, command, extra, b, d)
      {
        AnyOrder(node, s, command, extra, a, c);
        AnyOrder(node, s, command, extra, b, d);
      }
    } else {
      var extra, a, b := NestedDependsOnOrder(command);
      var node, s := Node(""), Server(0, "", "", "", "", 0, None, None, "", None);
      EmptyServer(node, s, extra);
      var o := Enumerate(ServerValues(node, s).Keys);
    }
  }

  lemma EmptyServer(node: Node, s: Server, extra: map<string, string>)
    requires node == Node("") && s == Server(0, "", "", "", "", 0, None, None, "", None) && PlainMap(extra)
    ensures PlainInput(node, s, extra)
  {
    assert Decimal(0) == "0" && Itoa(0) == "0";
  }

  /** An unmatched brace in front of a placeholder is plain text; a matched one nests. */
  lemma NestingExamples(name: string)
    requires BraceFree(name)
    ensures Unnested("{" + Placeholder(name)) && !Unnested("{" + (Placeholder(name) + "}"))
  {
    hide Plain, Unnested, Closes, Names, Expand;
    UnmatchedExample(name);
    var t := Placeholder(name) + "}";
    StartsOpen(t);
    OpenFacts(t, map[]);
    ClosesToken(name, "}", 0);
    ClosesHead("}");
  }

  lemma UnmatchedExample(name: string)
    requires BraceFree(name)
    ensures Unnested("{" + Placeholder(name))
  {
    hide Plain, Names, Expand;
    var t := Placeholder(name);
    assert t + "" == t;
    StartsOpen(t);
    OpenFacts(t, map[]);
    TokenFacts(name, "", map[]);
    ClosesToken(name, "", 0);
  }

  lemma StartsOpen(t: string)
    requires t != "" && t[0] == '{'
    ensures Plain(t) == 0
  {
  }
}
