/**
 * `formatCategory` as js/dashboard.js and js/ai-analysis.js both define it:
 * a fixed table of display names for the known category keys, otherwise
 * the key with its first character upper-cased and a space put before
 * every later upper-case letter.
 */
module Labels {
  import opened Wrappers

  /** The display names of the known keys. */
  function KnownLabel(key: string): Option<string>
  {
    if key == "allowance" then Some("Monthly Allowance")
    else if key == "scholarship" then Some("Scholarship")
    else if key == "parttime" then Some("Part-time Job")
    else if key == "gift" then Some("Gift/Support")
    else if key == "freelance" then Some("Freelance Work")
    else if key == "food" then Some("Food & Meals")
    else if key == "transportation" then Some("Transportation")
    else if key == "textbooks" then Some("Textbooks & Materials")
    else if key == "accommodation" then Some("Accommodation")
    else if key == "entertainment" then Some("Entertainment")
    else if key == "clothing" then Some("Clothing")
    else if key == "healthcare" then Some("Healthcare")
    else if key == "internet" then Some("Internet & Data")
    else if key == "laundry" then Some("Laundry")
    else if key == "stationery" then Some("Stationery")
    else if key == "other" then Some("Other")
    else None
  }

  predicate IsUpper(c: char)
  {
    'A' <= c <= 'Z'
  }

  /** `toUpperCase` on one character, ASCII letters only. */
  function UpperChar(c: char): (u: char)
    ensures 'a' <= c <= 'z' ==> IsUpper(u)
    ensures !('a' <= c <= 'z') ==> u == c
  {
    if 'a' <= c <= 'z' then (c as int - 32) as char else c
  }

  /** `.replace(/([A-Z])/g, " $1")`. */
  function SpaceCapitals(s: string): string
  {
    if s == [] then []
    else (if IsUpper(s[0]) then [' ', s[0]] else [s[0]]) + SpaceCapitals(s[1..])
  }

  function Capitals(s: string): nat
  {
    if s == [] then 0 else (if IsUpper(s[0]) then 1 else 0) + Capitals(s[1..])
  }

  /** Drops every space, undoing what SpaceCapitals inserts. */
  function Unspaced(s: string): string
  {
    if s == [] then [] else (if s[0] == ' ' then [] else [s[0]]) + Unspaced(s[1..])
  }

  function FormatCategory(key: string): (shown: string)
  {
    match KnownLabel(key)
      case Some(l) => l
      case None => if key == [] then [] else [UpperChar(key[0])] + SpaceCapitals(key[1..])
  }

  /**
   * An unknown key keeps its first character (upper-cased) and gains one
   * space per later capital, and removing those spaces gives the rest of the
   * key back when it had no spaces of its own.
   */
  lemma FormatUnknown(key: string)
    requires KnownLabel(key).None? && key != []
    ensures var shown := FormatCategory(key);
      |shown| == |key| + Capitals(key[1..]) && shown[0] == UpperChar(key[0])
    ensures var shown := FormatCategory(key);
      (forall i :: 1 <= i < |key| ==> key[i] != ' ') ==> Unspaced(shown[1..]) == key[1..]
  {
    SpaceCapitalsLength(key[1..]);
    if forall i :: 1 <= i < |key| ==> key[i] != ' ' {
      UnspacedSpaceCapitals(key[1..]);
    }
  }

  lemma {:induction false} SpaceCapitalsLength(s: string)
    ensures |SpaceCapitals(s)| == |s| + Capitals(s)
  {
    if s != [] {
      SpaceCapitalsLength(s[1..]);
    }
  }

  lemma {:induction false} UnspacedConcat(a: string, b: string)
    ensures Unspaced(a + b) == Unspaced(a) + Unspaced(b)
  {
    if a == [] {
      assert a + b == b;
    } else {
      assert (a + b)[1..] == a[1..] + b;
      UnspacedConcat(a[1..], b);
    }
  }

  lemma {:induction false} UnspacedSpaceCapitals(s: string)
    requires forall i :: 0 <= i < |s| ==> s[i] != ' '
    ensures Unspaced(SpaceCapitals(s)) == s
  {
    if s != [] {
      var head := if IsUpper(s[0]) then [' ', s[0]] else [s[0]];
      UnspacedConcat(head, SpaceCapitals(s[1..]));
      UnspacedSpaceCapitals(s[1..]);
      assert Unspaced(head) == [s[0]];
      assert s == [s[0]] + s[1..];
    }
  }

  /** Known keys show their table name. */
  lemma KnownLabels()
    ensures FormatCategory("parttime") == "Part-time Job"
    ensures FormatCategory("textbooks") == "Textbooks & Materials"
  {
  }

  /** An unknown camel-case key is split at its capital. */
  lemma CamelCaseKey()
    ensures FormatCategory("busFare") == "Bus Fare"
  {
    assert KnownLabel("busFare").None?;
    assert "busFare"[1..] == "usFare";
    assert "usFare"[1..] == "sFare";
    assert "sFare"[1..] == "Fare";
    assert "Fare"[1..] == "are";
    assert "are"[1..] == "re";
    assert "re"[1..] == "e";
  }
}
