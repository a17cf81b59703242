/**
 * The few java.lang.String operations the translator and the interceptor rely on:
 * case-insensitive comparison, splitting on a comma, joining, and Boolean parsing.
 */
module Strings {
  import opened Wrappers

  /** Character.toLowerCase restricted to ASCII letters. */
  function LowerChar(ch: char): char
  {
    if 'A' <= ch <= 'Z' then (ch as int + 32) as char else ch
  }

  function Lower(s: string): (r: string)
    ensures |r| == |s|
    ensures forall i :: 0 <= i < |s| ==> r[i] == LowerChar(s[i])
  {
    if s == [] then [] else [LowerChar(s[0])] + Lower(s[1..])
  }

  /** String.equalsIgnoreCase: same length and equal character by character up to case. */
  predicate EqualsIgnoreCase(a: string, b: string)
  {
    |a| == |b| && forall i :: 0 <= i < |a| ==> LowerChar(a[i]) == LowerChar(b[i])
  }

  /** Comparing up to case is the same as comparing the lower-cased strings. */
  lemma EqualsIgnoreCaseIsLowerEquality(a: string, b: string)
    ensures EqualsIgnoreCase(a, b) <==> Lower(a) == Lower(b)
  {
    if Lower(a) == Lower(b) {
      assert |a| == |b|;
      forall i | 0 <= i < |a| ensures LowerChar(a[i]) == LowerChar(b[i]) {
        assert Lower(a)[i] == Lower(b)[i];
      }
    }
  }

  /** No ASCII capital letter occurs in the text. */
  predicate NoCapitals(s: string)
  {
    forall i :: 0 <= i < |s| ==> !('A' <= s[i] <= 'Z')
  }

  /** A text without capital letters is its own lower-case form. */
  lemma {:induction false} LowerOfLowercase(s: string)
    requires NoCapitals(s)
    ensures Lower(s) == s
  {
    if s != [] {
      LowerOfLowercase(s[1..]);
      assert s == [s[0]] + s[1..];
    }
  }

  /** The only strings equal to "id" up to case. */
  lemma IdSpellings(s: string)
    ensures EqualsIgnoreCase(s, "id") <==> s in {"id", "Id", "iD", "ID"}
  {
    if EqualsIgnoreCase(s, "id") {
      assert LowerChar(s[0]) == 'i' && LowerChar(s[1]) == 'd';
      assert s[0] in {'i', 'I'} && s[1] in {'d', 'D'};
      assert s == [s[0], s[1]];
    }
  }

  /** The items separated by sep, with no separator before the first or after the last. */
  function Join(items: seq<string>, sep: string): string
  {
    if items == [] then ""
    else if |items| == 1 then items[0]
    else items[0] + sep + Join(items[1..], sep)
  }

  /** Appending one item to a joined list: the loop step of every StringBuffer builder here. */
  lemma {:induction false} JoinSnoc(items: seq<string>, x: string, sep: string)
    ensures Join(items + [x], sep) == if items == [] then x else Join(items, sep) + sep + x
  {
    if |items| > 1 {
      assert (items + [x])[1..] == items[1..] + [x];
      JoinSnoc(items[1..], x, sep);
    } else if |items| == 1 {
      assert (items + [x])[1..] == [x];
    }
  }

  /** The text cut at every comma: one more field than there are commas. */
  function Fields(s: string): (r: seq<string>)
    ensures |r| >= 1
  {
    if s == [] then [""]
    else if s[0] == ',' then [""] + Fields(s[1..])
    else var rest := Fields(s[1..]); [[s[0]] + rest[0]] + rest[1..]
  }

  /** A text without a comma is a single field. */
  lemma {:induction false} FieldsWithoutComma(s: string)
    requires ',' !in s
    ensures Fields(s) == [s]
  {
    if s != [] {
      FieldsWithoutComma(s[1..]);
      assert s == [s[0]] + s[1..];
    }
  }

  /** Putting an empty item in front of a non-empty list puts a separator in front of its join. */
  lemma JoinEmptyHead(items: seq<string>, sep: string)
    requires items != []
    ensures Join([""] + items, sep) == sep + Join(items, sep)
  {
    assert ([""] + items)[1..] == items;
  }

  /** Putting a character in front of the first item puts it in front of the join. */
  lemma JoinCharHead(c: char, items: seq<string>, sep: string)
    requires items != []
    ensures Join([[c] + items[0]] + items[1..], sep) == [c] + Join(items, sep)
  {
    var f := [[c] + items[0]] + items[1..];
    if |items| > 1 {
      assert f[1..] == items[1..];
      assert [c] + items[0] + sep + Join(items[1..], sep) == [c] + (items[0] + sep + Join(items[1..], sep));
    }
  }

  /** Joining the fields with commas gives back the text. */
  lemma {:induction false} FieldsJoin(s: string)
    ensures Join(Fields(s), ",") == s
  {
    if s != [] {
      FieldsJoin(s[1..]);
      if s[0] == ',' {
        JoinEmptyHead(Fields(s[1..]), ",");
      } else {
        JoinCharHead(s[0], Fields(s[1..]), ",");
      }
      assert s == [s[0]] + s[1..];
    }
  }

  /** No field holds a comma. */
  lemma {:induction false} FieldsHaveNoComma(s: string)
    ensures forall i :: 0 <= i < |Fields(s)| ==> ',' !in Fields(s)[i]
  {
    if s != [] {
      FieldsHaveNoComma(s[1..]);
      var rest := Fields(s[1..]);
      if s[0] != ',' {
        assert ',' !in rest[0];
        assert ',' !in [s[0]] + rest[0];
      }
    }
  }

  function DropTrailingEmpty(fields: seq<string>): (r: seq<string>)
    ensures |r| <= |fields| && r == fields[..|r|]
    ensures forall i :: |r| <= i < |fields| ==> fields[i] == ""
    ensures r == [] || r[|r| - 1] != ""
  {
    if fields == [] then []
    else if fields[|fields| - 1] == "" then DropTrailingEmpty(fields[..|fields| - 1])
    else fields
  }

  /**
   * String.split(",") with Java's rules: the pieces hold no comma and are the comma-separated fields in
   * order, of which only trailing empty ones are dropped, and only when the text holds a comma (so ""
   * gives [""] but "a,," gives ["a"]).
   */
  function SplitOnComma(s: string): (r: seq<string>)
    ensures forall i :: 0 <= i < |r| ==> ',' !in r[i]
    ensures |r| <= |Fields(s)| && r == Fields(s)[..|r|]
    ensures forall i :: |r| <= i < |Fields(s)| ==> Fields(s)[i] == ""
    ensures ',' !in s ==> |r| == 1
    ensures ',' in s ==> r == [] || r[|r| - 1] != ""
  {
    FieldsHaveNoComma(s);
    if ',' !in s then FieldsWithoutComma(s); [s] else DropTrailingEmpty(Fields(s))
  }

  /** k copies of x. */
  function Repeat<T>(x: T, k: nat): (r: seq<T>)
    ensures |r| == k && forall i :: 0 <= i < k ==> r[i] == x
  {
    if k == 0 then [] else Repeat(x, k - 1) + [x]
  }

  /** Joining items followed by k empty items: the items' join followed by k commas. */
  lemma {:induction false} JoinEmptyTail(items: seq<string>, k: nat)
    ensures items != [] ==> Join(items + Repeat("", k), ",") == Join(items, ",") + Repeat(',', k)
    ensures items == [] && k > 0 ==> Join(Repeat("", k), ",") == Repeat(',', k - 1)
  {
    if k == 0 {
      assert items + Repeat("", k) == items;
    } else {
      JoinEmptyTail(items, k - 1);
      var shorter := items + Repeat("", k - 1);
      assert items + Repeat("", k) == shorter + [""];
      JoinSnoc(shorter, "", ",");
      if items != [] {
        assert Join(items, ",") + Repeat(',', k - 1) + "," == Join(items, ",") + Repeat(',', k);
      } else if k > 1 {
        assert shorter == Repeat("", k - 1);
        assert Repeat(',', k - 2) + "," == Repeat(',', k - 1);
      }
    }
  }

  /**
   * split(",") loses only the trailing commas: the text is the pieces joined by commas followed by one
   * comma per dropped field (or, when every field was empty, nothing but commas).
   */
  lemma SplitOnCommaRoundTrip(s: string)
    ensures var r := SplitOnComma(s);
      var dropped := |Fields(s)| - |r|;
      && (r != [] ==> s == Join(r, ",") + Repeat(',', dropped))
      && (r == [] ==> dropped >= 1 && s == Repeat(',', dropped - 1))
  {
    var r := SplitOnComma(s);
    var dropped := |Fields(s)| - |r|;
    assert Fields(s) == r + Repeat("", dropped);
    FieldsJoin(s);
    JoinEmptyTail(r, dropped);
  }

  /** Boolean.parseBoolean / Boolean.valueOf: true exactly for a non-null "true" in any case. */
  predicate ParseBoolean(s: Option<string>)
    ensures ParseBoolean(s) <==> s.Some? && Lower(s.value) == "true"
  {
    EqualsIgnoreCaseIsLowerEquality(if s.Some? then s.value else "", "true");
    LowerOfLowercase("true");
    s.Some? && EqualsIgnoreCase(s.value, "true")
  }
}
