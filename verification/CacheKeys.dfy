/** Cache keys: generate_cache_key (src/praxis_sdk/dsl/types.py) and CacheKeyBuilder
    (src/praxis_sdk/dsl/cache.py). */
module CacheKeys {
  import opened Wrappers
  import opened DslTypes

  /** json.dumps(args, sort_keys=True): None when the arguments do not serialise. */
  type Dump = Args -> Option<string>

  /** Sorting the keys makes the dump a function of the dictionary; this says it loses nothing. */
  ghost predicate Injective(dump: Dump) {
    forall a, b :: dump(a).Some? && dump(a) == dump(b) ==> a == b
  }

  /** generate_cache_key */
  function Key(dump: Dump, tool: string, args: Args): string {
    match dump(args)
    case Some(json) => tool + ":" + json
    case None => tool
  }

  /** CacheKeyBuilder.build_key; an absent or empty user id is falsy. */
  function BuildKey(dump: Dump, tool: string, args: Args, includeUser: bool, userId: Option<string>): string {
    if includeUser && userId.Some? && userId.value != "" then
      "user:" + userId.value + ":" + Key(dump, tool, args)
    else
      Key(dump, tool, args)
  }

  /** The length of the part of s before its first colon. */
  function ColonAt(s: string): (n: nat)
    ensures n <= |s| && ':' !in s[..n]
    ensures n < |s| ==> s[n] == ':'
  {
    if s == "" || s[0] == ':' then 0
    else
      var n := 1 + ColonAt(s[1..]);
      assert s[..n] == [s[0]] + s[1..][..n - 1];
      n
  }

  /** CacheKeyBuilder.extract_tool_from_key */
  function ExtractTool(key: string): string {
    var bare :=
      if "user:" <= key && ColonAt(key[5..]) < |key| - 5 then key[5 + ColonAt(key[5..]) + 1..]
      else key;
    bare[..ColonAt(bare)]
  }

  lemma {:induction false} ColonAfter(head: string, tail: string)
    requires ':' !in head
    ensures ColonAt(head + ":" + tail) == |head|
    ensures ColonAt(head) == |head|
  {
    if head != "" {
      ColonAfter(head[1..], tail);
      assert (head + ":" + tail)[1..] == head[1..] + ":" + tail;
    }
  }

  lemma SplitUnique(head: string, tail: string, head': string, tail': string)
    requires ':' !in head && ':' !in head'
    requires head + ":" + tail == head' + ":" + tail'
    ensures head == head' && tail == tail'
  {
    ColonAfter(head, tail);
    ColonAfter(head', tail');
    var s := head + ":" + tail;
    assert head == s[..|head|] && tail == s[|head| + 1..];
    assert head' == s[..|head|] && tail' == s[|head| + 1..];
  }

  /** Exactly when two calls share a key. Tool names accepted by the validator have no colon. Calls
      whose arguments do not serialise share one key per tool, whatever the arguments. */
  lemma KeysCollide(dump: Dump, tool: string, args: Args, tool': string, args': Args)
    requires Injective(dump) && ':' !in tool && ':' !in tool'
    ensures Key(dump, tool, args) == Key(dump, tool', args')
       <==> tool == tool' && (args == args' || (dump(args).None? && dump(args').None?))
  {
    match (dump(args), dump(args')) {
      case (Some(json), Some(json')) =>
        if tool + ":" + json == tool' + ":" + json' {
          SplitUnique(tool, json, tool', json');
        }
      case (None, None) =>
      case (Some(json), None) =>
        assert (tool + ":" + json)[|tool|] == ':';
      case (None, Some(json')) =>
        assert (tool' + ":" + json')[|tool'|] == ':';
    }
  }

  /** One user id continues the other one behind a colon. */
  predicate Shadows(user: string, user': string) {
    user + ":" <= user'
  }

  /** Keys of users that do not shadow each other never meet, and a user's keys separate calls as plain
      keys do. */
  lemma UserKeysCollide(dump: Dump, user: string, tool: string, args: Args, user': string, tool': string, args': Args)
    requires user != "" && user' != "" && !Shadows(user, user') && !Shadows(user', user)
    ensures BuildKey(dump, tool, args, true, Some(user)) == BuildKey(dump, tool', args', true, Some(user'))
       <==> user == user' && Key(dump, tool, args) == Key(dump, tool', args')
  {
    if BuildKey(dump, tool, args, true, Some(user)) == BuildKey(dump, tool', args', true, Some(user')) {
      UserKeysMeet(user, Key(dump, tool, args), user', Key(dump, tool', args'));
    }
  }

  lemma UserKeysMeet(user: string, base: string, user': string, base': string)
    requires "user:" + user + ":" + base == "user:" + user' + ":" + base'
    ensures (user == user' && base == base') || Shadows(user, user') || Shadows(user', user)
  {
    var k, k' := "user:" + user + ":" + base, "user:" + user' + ":" + base';
    assert k[5..] == user + ":" + base && k'[5..] == user' + ":" + base';
    var s := k[5..];
    assert user == s[..|user|] && user' == s[..|user'|];
    assert base == s[|user| + 1..] && base' == s[|user'| + 1..];
  }

  /** Keys of two different users can meet exactly when one shadows the other. */
  lemma UsersMeet(dump: Dump, user: string, user': string)
    requires user != "" && user' != "" && user != user'
    ensures (exists tool, args, tool', args' ::
               BuildKey(dump, tool, args, true, Some(user)) == BuildKey(dump, tool', args', true, Some(user')))
       <==> Shadows(user, user') || Shadows(user', user)
  {
    if Shadows(user, user') {
      ShadowedMeet(dump, user, user');
    }
    if Shadows(user', user) {
      ShadowedMeet(dump, user', user);
    }
    if tool, args, tool', args' :|
      BuildKey(dump, tool, args, true, Some(user)) == BuildKey(dump, tool', args', true, Some(user')) {
      UserKeysMeet(user, Key(dump, tool, args), user', Key(dump, tool', args'));
    }
  }

  lemma ShadowedMeet(dump: Dump, user: string, user': string)
    requires user != "" && Shadows(user, user')
    ensures var rest := user'[|user| + 1..];
            BuildKey(dump, rest + ":t", map[], true, Some(user)) == BuildKey(dump, "t", map[], true, Some(user'))
  {
    var rest := user'[|user| + 1..];
    assert user' == user + ":" + rest;
    match dump(map[]) {
      case Some(json) =>
        assert "user:" + user + ":" + (rest + ":t" + ":" + json) == "user:" + (user + ":" + rest) + ":" + ("t" + ":" + json);
      case None =>
        assert "user:" + user + ":" + (rest + ":t") == "user:" + (user + ":" + rest) + ":" + "t";
    }
  }

  lemma BeforeColon(dump: Dump, tool: string, args: Args)
    requires ':' !in tool
    ensures var key := Key(dump, tool, args); key[..ColonAt(key)] == tool
  {
    ColonAfter(tool, if dump(args).Some? then dump(args).value else "");
  }

  /** Extraction undoes build_key on user-prefixed keys. */
  lemma ExtractFromUserKey(dump: Dump, tool: string, args: Args, user: string)
    requires ':' !in tool && ':' !in user && user != ""
    ensures ExtractTool(BuildKey(dump, tool, args, true, Some(user))) == tool
  {
    var base := Key(dump, tool, args);
    var key := "user:" + user + ":" + base;
    assert key[5..] == user + ":" + base;
    ColonAfter(user, base);
    assert key[5 + |user| + 1..] == base;
    BeforeColon(dump, tool, args);
  }

  /** What stands between the first and the second colon. */
  function SecondPiece(s: string): string
    requires ':' in s
  {
    FirstColon(s);
    s[ColonAt(s) + 1..][..ColonAt(s[ColonAt(s) + 1..])]
  }

  lemma FirstColon(s: string)
    ensures ColonAt(s) < |s| <==> ':' in s
  {
    assert ColonAt(s) == |s| ==> s[..ColonAt(s)] == s;
  }

  /** The tool is called "user" and its dumped arguments have a colon. */
  predicate ReadsAsUserKey(dump: Dump, tool: string, args: Args) {
    tool == "user" && dump(args).Some? && ':' in dump(args).value
  }

  /** Extraction undoes build_key on a plain key exactly when the tool has no colon and the key does not
      read as a user key, or the piece of the arguments it then answers with happens to be the tool's name. */
  lemma ExtractFromPlainKey(dump: Dump, tool: string, args: Args)
    ensures ReadsAsUserKey(dump, tool, args) ==> ExtractTool(Key(dump, tool, args)) == SecondPiece(dump(args).value)
    ensures ExtractTool(Key(dump, tool, args)) == tool
       <==> ':' !in tool && (!ReadsAsUserKey(dump, tool, args) || SecondPiece(dump(args).value) == "user")
  {
    if ':' in tool {
      ExtractedHasNoColon(Key(dump, tool, args));
    } else {
      match dump(args) {
        case None =>
          ExtractFromBareName(tool);
        case Some(json) =>
          if tool == "user" {
            ExtractFromUserTool(json);
          } else {
            NoUserPrefix(tool, json);
            ColonAfter(tool, json);
          }
      }
    }
  }

  lemma ExtractedHasNoColon(key: string)
    ensures ':' !in ExtractTool(key)
  {
  }

  /** The key of a call whose arguments do not serialise. */
  lemma ExtractFromBareName(tool: string)
    requires ':' !in tool
    ensures ExtractTool(tool) == tool
  {
    ColonAfter(tool, "");
    assert "user:"[4] == ':';
  }

  /** A plain key of the tool "user" reads as a user prefix as soon as its arguments have a colon. */
  lemma ExtractFromUserTool(json: string)
    ensures ExtractTool("user" + ":" + json) == if ':' in json then SecondPiece(json) else "user"
  {
    var key := "user" + ":" + json;
    assert key[..5] == "user:" && key[5..] == json;
    FirstColon(json);
    if ':' in json {
      assert key[5 + ColonAt(json) + 1..] == json[ColonAt(json) + 1..];
    }
    ColonAfter("user", json);
  }

  lemma NoUserPrefix(tool: string, json: string)
    requires ':' !in tool && tool != "user"
    ensures !("user:" <= tool + ":" + json)
  {
    var key := tool + ":" + json;
    if "user:" <= key {
      assert "user:" == "user" + ":";
      assert key == "user" + ":" + key[5..];
      SplitUnique("user", key[5..], tool, json);
    }
  }
}
