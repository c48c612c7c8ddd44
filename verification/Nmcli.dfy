/** The terse field format of NetworkManager: colons separate fields, backslashes escape. */
module Nmcli {

  /** The fields completed so far, the one being read, and whether a backslash is pending. */
  datatype Scan = Scan(done: seq<string>, current: string, escaped: bool)

  const START := Scan([], "", false)

  function ScanChar(s: Scan, c: char): Scan {
    if s.escaped then Scan(s.done, s.current + [c], false)
    else if c == '\\' then s.(escaped := true)
    else if c == ':' then Scan(s.done + [s.current], "", false)
    else s.(current := s.current + [c])
  }

  function ScanAll(s: Scan, line: string): Scan {
    if line == "" then s else ScanChar(ScanAll(s, line[..|line| - 1]), line[|line| - 1])
  }

  /** A backslash left dangling at the end stands for itself. */
  function Fields(line: string): seq<string> {
    var s := ScanAll(START, line);
    s.done + [if s.escaped then s.current + ['\\'] else s.current]
  }

  method ParseFields(line: string) returns (fields: seq<string>)
    ensures fields == Fields(line)
  {
    var escaped := false;
    fields := [""];
    for i := 0 to |line|
      invariant var s := ScanAll(START, line[..i]); fields == s.done + [s.current] && escaped == s.escaped
    {
      assert line[..i + 1][..i] == line[..i];
      var c, last := line[i], |fields| - 1;
      if escaped {
        fields := fields[last := fields[last] + [c]];
        escaped := false;
      } else if c == '\\' {
        escaped := true;
      } else if c == ':' {
        fields := fields + [""];
      } else {
        fields := fields[last := fields[last] + [c]];
      }
    }
    assert line[..|line|] == line;
    if escaped {
      var last := |fields| - 1;
      fields := fields[last := fields[last] + ['\\']];
    }
  }

  // ---------------------------------------------------------------- round trip

  function EscapeChar(c: char): string {
    if c == ':' || c == '\\' then ['\\', c] else [c]
  }

  function EscapeField(field: string): string {
    if field == "" then "" else EscapeField(field[..|field| - 1]) + EscapeChar(field[|field| - 1])
  }

  function Line(fields: seq<string>): string
    requires fields != []
  {
    if |fields| == 1 then EscapeField(fields[0])
    else Line(fields[..|fields| - 1]) + ":" + EscapeField(fields[|fields| - 1])
  }

  lemma {:induction false} ScanConcat(s: Scan, a: string, b: string)
    ensures ScanAll(s, a + b) == ScanAll(ScanAll(s, a), b)
  {
    if b == "" {
      assert a + b == a;
    } else {
      assert (a + b)[..|a + b| - 1] == a + b[..|b| - 1];
      ScanConcat(s, a, b[..|b| - 1]);
    }
  }

  lemma ScanEscaped(s: Scan, c: char)
    requires !s.escaped
    ensures ScanAll(s, EscapeChar(c)) == s.(current := s.current + [c])
  {
    if |EscapeChar(c)| == 2 {
      assert EscapeChar(c)[..1] == "\\" && "\\"[..0] == "";
      assert ScanAll(s, "\\") == s.(escaped := true);
    } else {
      assert EscapeChar(c)[..0] == "";
    }
  }

  lemma {:induction false} ScanField(s: Scan, field: string)
    requires !s.escaped
    ensures ScanAll(s, EscapeField(field)) == s.(current := s.current + field)
  {
    if field == "" {
      assert s.current + field == s.current;
    } else {
      var front, c := field[..|field| - 1], field[|field| - 1];
      ScanField(s, front);
      ScanConcat(s, EscapeField(front), EscapeChar(c));
      ScanEscaped(s.(current := s.current + front), c);
      assert s.current + front + [c] == s.current + field;
    }
  }

  lemma {:induction false} ScanLine(fields: seq<string>)
    requires fields != []
    ensures ScanAll(START, Line(fields)) == Scan(fields[..|fields| - 1], fields[|fields| - 1], false)
  {
    var front, last := fields[..|fields| - 1], fields[|fields| - 1];
    assert "" + last == last;
    if |fields| == 1 {
      ScanField(START, last);
    } else {
      ScanLine(front);
      ScanConcat(START, Line(front), ":");
      assert ":"[..0] == "" && front[..|front| - 1] + [front[|front| - 1]] == front;
      ScanConcat(START, Line(front) + ":", EscapeField(last));
      ScanField(Scan(front, "", false), last);
    }
  }

  /** Fields of any content, written out with their colons and backslashes escaped, are read back unchanged. */
  lemma FieldsRoundTrip(fields: seq<string>)
    requires fields != []
    ensures Fields(Line(fields)) == fields
  {
    ScanLine(fields);
  }

  /** A backslash left over at the end belongs to the last field. */
  lemma DanglingBackslash(fields: seq<string>)
    requires fields != []
    ensures Fields(Line(fields) + "\\") == fields[..|fields| - 1] + [fields[|fields| - 1] + "\\"]
  {
    ScanLine(fields);
    var line := Line(fields) + "\\";
    assert line[..|line| - 1] == Line(fields);
  }
}
