/**
 * `json.dumps` and `json.loads` restricted to what the credential store keeps in `Cred.transports`
 * (models.py line 45): a JSON array of strings, written by AuthManager.py line 166 and read back by
 * lines 98 and 194.
 */
module JsonList {
  import opened Wrappers

  /** The characters `json.dumps` escapes inside a string literal here: the quote and the backslash. */
  predicate NeedsEscape(c: char) {
    c == '"' || c == '\\'
  }

  function Escape(x: string): string
    decreases |x|
  {
    if x == [] then ""
    else (if NeedsEscape(x[0]) then ['\\', x[0]] else [x[0]]) + Escape(x[1..])
  }

  function Quote(x: string): string {
    "\"" + Escape(x) + "\""
  }

  /** The elements of the array, separated by `", "` as `json.dumps` does by default. */
  function Elements(xs: seq<string>): string
    decreases |xs|
  {
    if |xs| == 0 then ""
    else if |xs| == 1 then Quote(xs[0])
    else Quote(xs[0]) + ", " + Elements(xs[1..])
  }

  /** `json.dumps(xs)` for a list of strings. */
  function Dumps(xs: seq<string>): string {
    "[" + Elements(xs) + "]"
  }

  /** The body of a string literal up to its closing quote: its value and the text after the quote. */
  function ParseString(s: string): (r: Option<(string, string)>)
    ensures r.Some? ==> |r.value.1| < |s|
    decreases |s|
  {
    if |s| == 0 then None
    else if s[0] == '"' then Some(("", s[1..]))
    else if s[0] == '\\' then
      if |s| >= 2 && NeedsEscape(s[1]) then
        match ParseString(s[2..])
        case None => None
        case Some((v, rest)) => Some(([s[1]] + v, rest))
      else None
    else
      match ParseString(s[1..])
      case None => None
      case Some((v, rest)) => Some(([s[0]] + v, rest))
  }

  /** One or more string literals separated by `", "`, then the closing bracket and nothing else. */
  function ParseElements(s: string): Option<seq<string>>
    decreases |s|
  {
    if |s| == 0 || s[0] != '"' then None
    else
      match ParseString(s[1..])
      case None => None
      case Some((v, rest)) =>
        if rest == "]" then Some([v])
        else if |rest| >= 2 && rest[0] == ',' && rest[1] == ' ' then
          match ParseElements(rest[2..])
          case None => None
          case Some(vs) => Some([v] + vs)
        else None
  }

  /** `json.loads` of the text `Dumps` writes; `None` stands for the `JSONDecodeError` it raises. */
  function Loads(s: string): Option<seq<string>> {
    if s == "[]" then Some([])
    else if |s| > 0 && s[0] == '[' then ParseElements(s[1..])
    else None
  }

  lemma {:induction false} ParseEscaped(x: string, rest: string)
    ensures ParseString(Escape(x) + "\"" + rest) == Some((x, rest))
    decreases |x|
  {
    if x == [] {
      assert Escape(x) + "\"" + rest == "\"" + rest;
      assert ("\"" + rest)[1..] == rest;
    } else {
      var t := Escape(x[1..]) + "\"" + rest;
      ParseEscaped(x[1..], rest);
      assert x == [x[0]] + x[1..];
      if NeedsEscape(x[0]) {
        assert Escape(x) + "\"" + rest == ['\\', x[0]] + t;
        assert (['\\', x[0]] + t)[2..] == t;
      } else {
        assert Escape(x) + "\"" + rest == [x[0]] + t;
        assert ([x[0]] + t)[1..] == t;
      }
    }
  }

  lemma {:induction false} ParseElementsOf(xs: seq<string>)
    requires xs != []
    ensures ParseElements(Elements(xs) + "]") == Some(xs)
    decreases |xs|
  {
    var x := xs[0];
    if |xs| == 1 {
      var s := Quote(x) + "]";
      assert s == "\"" + (Escape(x) + "\"" + "]");
      assert s[1..] == Escape(x) + "\"" + "]";
      ParseEscaped(x, "]");
      assert xs == [x];
    } else {
      var tail := Elements(xs[1..]) + "]";
      var after := ", " + tail;
      var s := Elements(xs) + "]";
      assert s == "\"" + (Escape(x) + "\"" + after);
      assert s[1..] == Escape(x) + "\"" + after;
      ParseEscaped(x, after);
      assert after[2..] == tail;
      assert after != "]";
      ParseElementsOf(xs[1..]);
      assert xs == [x] + xs[1..];
    }
  }

  /** Reading back what was written gives the same list (AuthManager.py line 166 against 98 and 194). */
  lemma LoadsDumps(xs: seq<string>)
    ensures Loads(Dumps(xs)) == Some(xs)
  {
    if xs == [] {
      assert Dumps(xs) == "[]";
    } else {
      var s := Dumps(xs);
      assert s[1..] == Elements(xs) + "]";
      ParseElementsOf(xs);
      assert s != "[]" by {
        assert |Elements(xs)| >= 2;
      }
    }
  }
}
