/**
 `M2006_Motor::parse_cmd`: splits a command string "x,y,omega" at its
 first two commas and converts the three parts with `std::stof`.

 `std::stof` is a parameter: it yields `None` where the library function
 would throw (no convertible prefix, or out of range), and the whole parse
 then fails. The positions `find` returns are stored in an `int`, so
 `npos` becomes -1; passed back to `substr` as a length or added to 1 as a
 position, -1 behaves as "to the end" and 0 respectively.
 */
module ParseCmd {
  import opened Wrappers

  /** The three velocity components of a drive command. */
  datatype ParsedCmd = ParsedCmd(x: real, y: real, omega: real)

  /** `(int)s.find(c)`: the first position of `c`, or -1 for `npos`. */
  function Find(s: string, c: char): (i: int)
    ensures -1 <= i < |s|
    ensures i == -1 <==> c !in s
    ensures 0 <= i ==> s[i] == c && c !in s[..i]
    decreases |s|
  {
    if |s| == 0 then -1
    else if s[0] == c then 0
    else
      var k := Find(s[1..], c);
      if k == -1 then -1
      else
        assert s[..k + 1] == [s[0]] + s[1..][..k];
        k + 1
  }

  /** `s.substr(pos, count)` with `count` an `int` converted to `size_t`: a
      negative count (such as a stored `npos`) or one running past the end
      takes the rest of the string. */
  function Substr(s: string, pos: nat, count: int): (r: string)
    requires pos <= |s|
    ensures count < 0 || pos + count > |s| ==> r == s[pos..]
    ensures 0 <= count && pos + count <= |s| ==> r == s[pos..pos + count]
  {
    if count < 0 || pos + count > |s| then s[pos..] else s[pos..pos + count]
  }

  /** The three fields as converted text, or `None` if a conversion throws. */
  function Convert(stof: string -> Option<real>, xs: string, ys: string, os: string): (r: Option<ParsedCmd>)
    ensures r.Some? <==> stof(xs).Some? && stof(ys).Some? && stof(os).Some?
    ensures r.Some? ==> r.value == ParsedCmd(stof(xs).value, stof(ys).value, stof(os).value)
  {
    match (stof(xs), stof(ys), stof(os))
    case (Some(x), Some(y), Some(o)) => Some(ParsedCmd(x, y, o))
    case _ => None
  }

  /** The text fields `parse_cmd` hands to `stof`, as written. */
  function SplitAsWritten(cmd: string): (fields: (string, string, string))
  {
    var first := Find(cmd, ',');
    var rest := Substr(cmd, first + 1, -1);
    var second := Find(rest, ',');
    (Substr(cmd, 0, first), Substr(rest, 0, second), Substr(rest, second + 1, -1))
  }

  /**
   `parse_cmd` as written. The early return meant for a string without a
   comma compares the position `find` returns with the string length, which
   `find` never returns, so the guard never fires.
   */
  function ParseCmdAsWritten(cmd: string, stof: string -> Option<real>): (r: Option<ParsedCmd>)
    ensures Find(cmd, ',') != |cmd|
    ensures var (xs, ys, os) := SplitAsWritten(cmd); r == Convert(stof, xs, ys, os)
  {
    if Find(cmd, ',') == |cmd| then Some(ParsedCmd(0.0, 0.0, 0.0))
    else
      var (xs, ys, os) := SplitAsWritten(cmd);
      Convert(stof, xs, ys, os)
  }

  /** With two commas the fields are the texts before, between and after
      them (the last field keeps any further commas). */
  lemma TwoCommas(a: string, b: string, c: string)
    requires ',' !in a && ',' !in b
    ensures SplitAsWritten(a + "," + b + "," + c) == (a, b, c)
  {
    var cmd := a + "," + b + "," + c;
    FindAfter(a, b + "," + c);
    assert cmd == a + [','] + (b + "," + c);
    var rest := Substr(cmd, |a| + 1, -1);
    assert rest == b + "," + c;
    FindAfter(b, c);
    assert rest == b + [','] + c;
    assert cmd[..|a|] == a;
    assert rest[..|b|] == b;
  }

  /** With one comma, the text after it is converted twice: y and omega
      are equal. */
  lemma OneComma(a: string, b: string)
    requires ',' !in a && ',' !in b
    ensures SplitAsWritten(a + "," + b) == (a, b, b)
  {
    var cmd := a + "," + b;
    FindAfter(a, b);
    assert cmd == a + [','] + b;
    assert cmd[..|a|] == a;
    assert Substr(cmd, |a| + 1, -1) == b;
  }

  /** Without a comma the whole string is converted three times. */
  lemma NoComma(cmd: string)
    requires ',' !in cmd
    ensures SplitAsWritten(cmd) == (cmd, cmd, cmd)
  {
  }

  /** `find` returns the length of a comma-free prefix followed by a comma. */
  lemma FindAfter(a: string, b: string)
    requires ',' !in a
    ensures Find(a + [','] + b, ',') == |a|
  {
    var s := a + [','] + b;
    assert s[|a|] == ',';
    assert s[..|a|] == a;
  }

  /** `parse_cmd` as its guard intends: a string without a comma yields the
      zero command instead of being parsed. */
  function ParseCmd(cmd: string, stof: string -> Option<real>): (r: Option<ParsedCmd>)
    ensures ',' !in cmd ==> r == Some(ParsedCmd(0.0, 0.0, 0.0))
    ensures ',' in cmd ==> r == ParseCmdAsWritten(cmd, stof)
  {
    if Find(cmd, ',') == -1 then Some(ParsedCmd(0.0, 0.0, 0.0))
    else
      var (xs, ys, os) := SplitAsWritten(cmd);
      Convert(stof, xs, ys, os)
  }

  /** A well-formed command "a,b,c" parses to the three converted fields. */
  lemma ParseWellFormed(a: string, b: string, c: string, stof: string -> Option<real>)
    requires ',' !in a && ',' !in b
    requires stof(a).Some? && stof(b).Some? && stof(c).Some?
    ensures ParseCmd(a + "," + b + "," + c, stof)
         == Some(ParsedCmd(stof(a).value, stof(b).value, stof(c).value))
  {
    var cmd := a + "," + b + "," + c;
    assert cmd[|a|] == ',';
    TwoCommas(a, b, c);
  }

  /** "5" carries no comma: as written it becomes (5, 5, 5); the intended
      parse returns the zero command. */
  lemma MissingCommaCounterexample()
    ensures var stof := (s: string) => if s == "5" then Some(5.0) else None;
            ParseCmdAsWritten("5", stof) == Some(ParsedCmd(5.0, 5.0, 5.0))
            && ParseCmd("5", stof) == Some(ParsedCmd(0.0, 0.0, 0.0))
  {
    NoComma("5");
  }
}
