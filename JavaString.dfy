/** The three java.lang.String operations the flight search relies on:
    `replaceAll("\\s+", "")`, `split(",")` and `contains`. */
module JavaString {

  /** Java's regex class `\s`: space, tab, line feed, vertical tab (0x0B),
      form feed (0x0C) and carriage return. */
  predicate IsWhitespace(c: char) {
    c == ' ' || c == '\t' || c == '\n' || c == '\r' || c as int == 0x0B || c as int == 0x0C
  }

  predicate NoWhitespace(s: string) {
    forall i :: 0 <= i < |s| ==> !IsWhitespace(s[i])
  }

  /** `s.replaceAll("\\s+", "")`: every whitespace character is deleted,
      every other character is kept in order. */
  function StripWhitespace(s: string): string {
    if s == [] then []
    else if IsWhitespace(s[0]) then StripWhitespace(s[1..])
    else [s[0]] + StripWhitespace(s[1..])
  }

  /** No whitespace is left, nothing else is added, and a string without
      whitespace is left as it is. */
  lemma {:induction false} StripWhitespaceSpec(s: string)
    ensures NoWhitespace(StripWhitespace(s))
    ensures forall c :: c in StripWhitespace(s) ==> c in s
    ensures NoWhitespace(s) ==> StripWhitespace(s) == s
  {
    if s != [] {
      StripWhitespaceSpec(s[1..]);
      assert s == [s[0]] + s[1..];
    }
  }

  /** Deletion of whitespace distributes over concatenation, so whitespace can be
      inserted or removed anywhere in a line. */
  lemma {:induction false} StripConcat(a: string, b: string)
    ensures StripWhitespace(a + b) == StripWhitespace(a) + StripWhitespace(b)
  {
    if a != [] {
      assert (a + b)[0] == a[0];
      assert (a + b)[1..] == a[1..] + b;
      StripConcat(a[1..], b);
    } else {
      assert a + b == b;
    }
  }

  /** A string made only of whitespace disappears completely. */
  lemma {:induction false} StripAllWhitespace(w: string)
    requires forall i :: 0 <= i < |w| ==> IsWhitespace(w[i])
    ensures StripWhitespace(w) == []
  {
    if w != [] {
      StripAllWhitespace(w[1..]);
    }
  }

  predicate NoComma(fields: seq<string>) {
    forall k :: 0 <= k < |fields| ==> ',' !in fields[k]
  }

  /** Every field between two commas, with nothing dropped: the list Java's
      `split` builds before it discards trailing empty strings. */
  function SplitAll(s: string): (r: seq<string>)
    ensures |r| >= 1
  {
    if s == [] then [""]
    else
      var rest := SplitAll(s[1..]);
      if s[0] == ',' then [""] + rest
      else [[s[0]] + rest[0]] + rest[1..]
  }

  /** No field holds a comma, and every character of a field comes from s. */
  lemma {:induction false} SplitAllSpec(s: string)
    ensures NoComma(SplitAll(s))
    ensures forall k, c :: 0 <= k < |SplitAll(s)| && c in SplitAll(s)[k] ==> c in s
  {
    if s != [] {
      SplitAllSpec(s[1..]);
      assert s == [s[0]] + s[1..];
      var rest := SplitAll(s[1..]);
      if s[0] != ',' {
        assert forall c :: c in [s[0]] + rest[0] ==> c == s[0] || c in rest[0];
      }
    }
  }

  /** The fields separated by single commas (the inverse of SplitAll). */
  function Join(fields: seq<string>): string
    requires |fields| >= 1
  {
    if |fields| == 1 then fields[0] else fields[0] + "," + Join(fields[1..])
  }

  lemma {:induction false} JoinSplitAll(s: string)
    ensures Join(SplitAll(s)) == s
  {
    if s != [] {
      var rest := SplitAll(s[1..]);
      JoinSplitAll(s[1..]);
      if s[0] == ',' {
        assert SplitAll(s) == [""] + rest;
        assert ([""] + rest)[1..] == rest;
        assert s == [','] + s[1..];
      } else {
        var r := [[s[0]] + rest[0]] + rest[1..];
        assert SplitAll(s) == r;
        if |rest| == 1 {
          assert s == [s[0]] + s[1..];
        } else {
          assert r[1..] == rest[1..];
          assert Join(rest) == rest[0] + "," + Join(rest[1..]);
          assert s == [s[0]] + s[1..];
        }
      }
    }
  }

  /** A comma-free prefix is glued to the first field of what follows it. */
  lemma {:induction false} SplitAllPrefix(f: string, t: string)
    requires ',' !in f
    ensures SplitAll(f + t) == [f + SplitAll(t)[0]] + SplitAll(t)[1..]
  {
    if f != [] {
      assert (f + t)[0] == f[0];
      assert (f + t)[1..] == f[1..] + t;
      SplitAllPrefix(f[1..], t);
      assert [f[0]] + (f[1..] + SplitAll(t)[0]) == f + SplitAll(t)[0];
    } else {
      assert f + t == t;
      assert f + SplitAll(t)[0] == SplitAll(t)[0];
      assert SplitAll(t) == [SplitAll(t)[0]] + SplitAll(t)[1..];
    }
  }

  lemma {:induction false} SplitAllJoin(fields: seq<string>)
    requires |fields| >= 1 && NoComma(fields)
    ensures SplitAll(Join(fields)) == fields
  {
    if |fields| == 1 {
      SplitAllPrefix(fields[0], "");
      assert fields[0] + "" == fields[0];
    } else {
      var f, u := fields[0], Join(fields[1..]);
      SplitAllJoin(fields[1..]);
      assert f + "," + u == f + ("," + u);
      SplitAllPrefix(f, "," + u);
      assert ("," + u)[0] == ',' && ("," + u)[1..] == u;
      assert SplitAll("," + u) == [""] + fields[1..];
      assert f + "" == f;
    }
  }

  /** Java's `split` with limit 0 removes the empty strings at the end of the list. */
  function DropTrailingEmpty(fields: seq<string>): seq<string> {
    if fields == [] then []
    else if fields[|fields| - 1] == "" then DropTrailingEmpty(fields[..|fields| - 1])
    else fields
  }

  /** What is dropped is exactly the run of empty strings at the end. */
  lemma {:induction false} DropTrailingEmptySpec(fields: seq<string>)
    ensures DropTrailingEmpty(fields) <= fields
    ensures DropTrailingEmpty(fields) == [] || DropTrailingEmpty(fields)[|DropTrailingEmpty(fields)| - 1] != ""
    ensures forall k :: |DropTrailingEmpty(fields)| <= k < |fields| ==> fields[k] == ""
  {
    if fields != [] && fields[|fields| - 1] == "" {
      DropTrailingEmptySpec(fields[..|fields| - 1]);
    }
  }

  /** `s.split(",")`. A string without a comma comes back as the one element
      array `{s}` (so "" gives [""]); otherwise all fields, less the empty
      ones at the end (so ",,," gives [] and ",a" keeps its leading ""). */
  function Split(s: string): seq<string> {
    if ',' !in s then [s] else DropTrailingEmpty(SplitAll(s))
  }

  /** Split keeps a prefix of all the fields, drops only empty ones, ends with
      a non-empty field (unless s is ""), and no field holds a comma. */
  lemma SplitSpec(s: string)
    ensures Split(s) <= SplitAll(s)
    ensures forall k :: |Split(s)| <= k < |SplitAll(s)| ==> SplitAll(s)[k] == ""
    ensures s == "" || Split(s) == [] || Split(s)[|Split(s)| - 1] != ""
    ensures NoComma(Split(s))
  {
    SplitAllSpec(s);
    if ',' !in s {
      SplitAllPrefix(s, "");
      assert s + "" == s;
    } else {
      DropTrailingEmptySpec(SplitAll(s));
    }
  }

  /** The fields survive the round trip through Join and Split unchanged, as
      long as none holds a comma and, when there are several, the last is not
      empty. */
  lemma SplitJoin(fields: seq<string>)
    requires |fields| >= 1 && NoComma(fields) && (|fields| == 1 || fields[|fields| - 1] != "")
    ensures Split(Join(fields)) == fields
  {
    if |fields| == 1 {
      assert Join(fields) == fields[0];
    } else {
      SplitAllJoin(fields);
      assert Join(fields) == fields[0] + "," + Join(fields[1..]);
      assert Join(fields)[|fields[0]|] == ',';
    }
  }

  /** The edge cases of limit-0 splitting on a comma. */
  lemma SplitEdgeCases()
    ensures Split("") == [""]
    ensures Split(",,,") == []
    ensures Split(",a") == ["", "a"]
    ensures Split("a,,b,,") == ["a", "", "b"]
  {
    SplitAllExamples();
    assert ',' in ",a" && ',' in ",,," && ',' in "a,,b,,";
    var four := ["", "", "", ""];
    assert four[..3] == ["", "", ""] && four[..3][..2] == [""] + [""] && four[..3][..2][..1] == [""];
    assert DropTrailingEmpty(four) == DropTrailingEmpty([""]) == DropTrailingEmpty([]) == [];
    var five := ["a", "", "b", "", ""];
    assert five[..4] == ["a", "", "b", ""] && five[..4][..3] == ["a", "", "b"];
    assert DropTrailingEmpty(five) == DropTrailingEmpty(five[..4]) == DropTrailingEmpty(["a", "", "b"]);
  }

  lemma SplitAllExamples()
    ensures SplitAll("") == [""]
    ensures SplitAll(",a") == ["", "a"]
    ensures SplitAll(",,,") == ["", "", "", ""]
    ensures SplitAll("a,,b,,") == ["a", "", "b", "", ""]
  {
    assert "a"[1..] == "" && ['a'] + "" == "a";
    assert SplitAll("a") == ["a"];
    assert ",a"[1..] == "a";
    assert SplitAll(",") == ["", ""];
    assert SplitAll(",,") == ["", "", ""];
    assert "b,,"[1..] == ",," && ['b'] + "" == "b";
    assert SplitAll("b,,") == ["b", "", ""];
    assert SplitAll(",b,,") == ["", "b", "", ""];
    assert SplitAll(",,b,,") == ["", "", "b", "", ""];
    assert "a,,b,,"[1..] == ",,b,,";
  }

  /** `s.contains(t)`: t occurs in s as a contiguous substring. */
  predicate Contains(s: string, t: string)
    decreases |s|
  {
    t <= s || (s != [] && Contains(s[1..], t))
  }

  /** For a one-character string, containment is membership. */
  lemma {:induction false} ContainsChar(s: string, c: char)
    ensures Contains(s, [c]) <==> c in s
  {
    if s != [] {
      ContainsChar(s[1..], c);
      assert s == [s[0]] + s[1..];
    }
  }
}
