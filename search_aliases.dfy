/**
 * `gen_multipart_field_aliases` of the search backend: the aliases a snake_case search field
 * name is also known by (its singular, and its words run together or joined by hyphens).
 */
module SearchAliases {
  /** Python's `s.split(sep)` for a one-character separator: the pieces between separators. */
  function Split(s: string, sep: char): (r: seq<string>)
    ensures |r| >= 1
    ensures forall i :: 0 <= i < |r| ==> sep !in r[i]
  {
    if |s| == 0 then [""]
    else
      var rest := Split(s[1..], sep);
      if s[0] == sep then [""] + rest
      else [[s[0]] + rest[0]] + rest[1..]
  }

  /** Python's `connector.join(parts)`. */
  function Join(connector: string, parts: seq<string>): (r: string)
    // an empty list joins to "", and otherwise the result starts with the first part
    ensures parts == [] ==> r == ""
    ensures parts != [] ==> |parts[0]| <= |r| && r[..|parts[0]|] == parts[0]
  {
    if |parts| == 0 then ""
    else if |parts| == 1 then parts[0]
    else parts[0] + connector + Join(connector, parts[1..])
  }

  /** Python's `s[:-1]`: everything but the last character, and "" for "". */
  function DropLast(s: string): (r: string)
    ensures |s| > 0 ==> |r| == |s| - 1 && s == r + [s[|s| - 1]]
    ensures |s| == 0 ==> r == ""
  {
    if |s| == 0 then "" else s[..|s| - 1]
  }

  /** Python's `s.endswith(suffix)` for a one-character suffix. */
  predicate EndsWithChar(s: string, c: char)
  {
    |s| > 0 && s[|s| - 1] == c
  }

  /** The reference reading of `"".join(s.split(sep))`: `s` with every `sep` removed. */
  function Without(s: string, sep: char): (r: string)
    ensures sep !in r
  {
    if |s| == 0 then "" else if s[0] == sep then Without(s[1..], sep) else [s[0]] + Without(s[1..], sep)
  }

  /** The reference reading of `connector.join(s.split(sep))`: every `sep` replaced by `with`. */
  function Replaced(s: string, sep: char, with: char): (r: string)
    ensures |r| == |s|
  {
    if |s| == 0 then "" else [if s[0] == sep then with else s[0]] + Replaced(s[1..], sep, with)
  }

  /** The first piece of a split grows by one character when the string does not start with the separator. */
  lemma JoinCons(connector: string, head: string, parts: seq<string>)
    requires |parts| >= 1
    ensures Join(connector, [head + parts[0]] + parts[1..]) == head + Join(connector, parts)
  {
    var ps := [head + parts[0]] + parts[1..];
    if |parts| > 1 {
      assert ps[1..] == parts[1..];
    }
  }

  /** Joining after a split with the separator itself gives the string back. */
  lemma {:induction false} JoinSplitRoundTrip(s: string, sep: char)
    ensures Join([sep], Split(s, sep)) == s
  {
    if |s| > 0 {
      var rest := Split(s[1..], sep);
      JoinSplitRoundTrip(s[1..], sep);
      if s[0] == sep {
        assert ([""] + rest)[1..] == rest;
        assert s == [s[0]] + s[1..];
      } else {
        JoinCons([sep], [s[0]], rest);
        assert s == [s[0]] + s[1..];
      }
    }
  }

  /** `"".join(s.split(sep))` removes every separator. */
  lemma {:induction false} JoinEmptySplit(s: string, sep: char)
    ensures Join("", Split(s, sep)) == Without(s, sep)
  {
    if |s| > 0 {
      var rest := Split(s[1..], sep);
      JoinEmptySplit(s[1..], sep);
      if s[0] == sep {
        assert ([""] + rest)[1..] == rest;
      } else {
        JoinCons("", [s[0]], rest);
      }
    }
  }

  /** `connector.join(s.split(sep))` puts the one-character connector where each separator was. */
  lemma {:induction false} JoinCharSplit(s: string, sep: char, with: char)
    ensures Join([with], Split(s, sep)) == Replaced(s, sep, with)
  {
    if |s| > 0 {
      var rest := Split(s[1..], sep);
      JoinCharSplit(s[1..], sep, with);
      if s[0] == sep {
        assert ([""] + rest)[1..] == rest;
      } else {
        JoinCons([with], [s[0]], rest);
      }
    }
  }

  /** The singular (for a plural name) followed by the two joined forms, each with its shortened copy, mean what the aliases promise. */
  lemma AliasesFromJoins(field: string, singular: seq<string>, aliases: seq<string>)
    requires singular == if EndsWithChar(field, 's') then [field[..|field| - 1]] else []
    requires var bits := Split(field, '_');
      aliases == singular + [Join("", bits), DropLast(Join("", bits)), Join("-", bits), DropLast(Join("-", bits))]
    ensures |aliases| == if EndsWithChar(field, 's') then 5 else 4
    ensures EndsWithChar(field, 's') ==> aliases[0] == field[..|field| - 1]
    ensures var o := if EndsWithChar(field, 's') then 1 else 0;
      aliases[o] == Without(field, '_') && aliases[o + 1] == DropLast(Without(field, '_')) &&
      aliases[o + 2] == Replaced(field, '_', '-') && aliases[o + 3] == DropLast(Replaced(field, '_', '-'))
  {
    JoinEmptySplit(field, '_');
    JoinCharSplit(field, '_', '-');
  }

  /** `gen_multipart_field_aliases(field)`. */
  method GenMultipartFieldAliases(field: string) returns (aliases: seq<string>)
    // five aliases for a plural name, four otherwise
    ensures |aliases| == if EndsWithChar(field, 's') then 5 else 4
    // a plural name starts with its singular
    ensures EndsWithChar(field, 's') ==> aliases[0] == field[..|field| - 1]
    // then the words run together, and joined by hyphens, each followed by itself minus its last character
    ensures var o := if EndsWithChar(field, 's') then 1 else 0;
      aliases[o] == Without(field, '_') && aliases[o + 1] == DropLast(Without(field, '_')) &&
      aliases[o + 2] == Replaced(field, '_', '-') && aliases[o + 3] == DropLast(Replaced(field, '_', '-'))
  {
    var bits := Split(field, '_');
    aliases := [];
    if |field| > 0 && field[|field| - 1] == 's' {
      aliases := aliases + [field[..|field| - 1]];
    }
    ghost var singular := aliases;
    var connectors := ["", "-"];
    ghost var joined0, joined1 := Join(connectors[0], bits), Join(connectors[1], bits);
    // each connector's joined form, then it minus its last character
    ghost var pairs := [joined0, DropLast(joined0), joined1, DropLast(joined1)];
    for i := 0 to |connectors|
      invariant aliases == singular + pairs[..2 * i]
    {
      var joined := Join(connectors[i], bits);
      assert joined == pairs[2 * i] && DropLast(joined) == pairs[2 * i + 1] by {
        if i == 0 { assert joined == joined0; } else { assert joined == joined1; }
      }
      assert pairs[..2 * i + 2] == pairs[..2 * i] + [pairs[2 * i], pairs[2 * i + 1]];
      aliases := aliases + [joined, DropLast(joined)];
    }
    assert pairs[..4] == pairs;
    AliasesFromJoins(field, singular, aliases);
  }
}
