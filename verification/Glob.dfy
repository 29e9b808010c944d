/** Go's path.Match for the patterns the importer uses: literal characters and `*`, where `*` matches
    any run of characters that contains no slash. */
module Glob {

  predicate Match(pattern: string, name: string)
    decreases |pattern| + |name|
  {
    if pattern == "" then name == ""
    else if pattern[0] == '*' then
      Match(pattern[1..], name) || (name != "" && name[0] != '/' && Match(pattern, name[1..]))
    else name != "" && name[0] == pattern[0] && Match(pattern[1..], name[1..])
  }

  /** A pattern without `*` matches itself only. */
  lemma {:induction false} MatchLiteral(pattern: string, name: string)
    requires '*' !in pattern
    ensures Match(pattern, name) <==> pattern == name
  {
    if pattern != "" && name != "" {
      assert pattern == [pattern[0]] + pattern[1..] && name == [name[0]] + name[1..];
      MatchLiteral(pattern[1..], name[1..]);
    }
  }

  lemma {:induction false} MatchStar(name: string)
    ensures Match("*", name) <==> '/' !in name
  {
    assert "*"[1..] == "";
    if name != "" {
      assert name == [name[0]] + name[1..];
      MatchStar(name[1..]);
    }
  }

  /** `prefix*` matches exactly the names one level below the prefix: a trailing `*` never crosses a
      slash. */
  lemma {:induction false} MatchOneLevel(prefix: string, name: string)
    requires '*' !in prefix
    ensures Match(prefix + "*", name) <==> prefix <= name && '/' !in name[|prefix|..]
  {
    if prefix == "" {
      assert prefix + "*" == "*" && name[0..] == name;
      MatchStar(name);
    } else {
      var pattern := prefix + "*";
      assert pattern[0] == prefix[0] && pattern[1..] == prefix[1..] + "*";
      if name != "" {
        assert prefix == [prefix[0]] + prefix[1..] && name == [name[0]] + name[1..];
        MatchOneLevel(prefix[1..], name[1..]);
        assert prefix <= name ==> name[|prefix|..] == name[1..][|prefix[1..]|..];
      }
    }
  }
}
