/** Key names: what validation accepts and what the hotkey sensor can translate, two tables that must agree. */
module Keys {
  import opened Options
  import opened Config

  predicate WhiteSpace(c: char) {
    var v := c as int;
    9 <= v <= 13 || v == 0x20 || v == 0x85 || v == 0xA0 || v == 0x1680 || 0x2000 <= v <= 0x200A || v == 0x2028 ||
    v == 0x2029 || v == 0x202F || v == 0x205F || v == 0x3000
  }

  function TrimStart(s: string): string {
    if s != "" && WhiteSpace(s[0]) then TrimStart(s[1..]) else s
  }

  function TrimEnd(s: string): string {
    if s != "" && WhiteSpace(s[|s| - 1]) then TrimEnd(s[..|s| - 1]) else s
  }

  function UpperChar(c: char): char {
    if 'a' <= c <= 'z' then c - 'a' + 'A' else c
  }

  function Upper(s: string): string {
    seq(|s|, i requires 0 <= i < |s| => UpperChar(s[i]))
  }

  const PREFIX := "KEY_"

  /** The name looked up: trimmed, in capitals, without the prefix. */
  function Normal(name: string): string {
    var capital := Upper(TrimEnd(TrimStart(name)));
    if PREFIX <= capital then capital[|PREFIX|..] else capital
  }

  // ---------------------------------------------------------------- what validation accepts

  predicate LongName(key: string) {
    match key
    case "ESC" => true case "ENTER" => true case "LEFTCTRL" => true case "CTRL" => true case "LEFTSHIFT" => true
    case "SHIFT" => true case "LEFTALT" => true case "ALT" => true case "SPACE" => true case "F1" => true
    case "F2" => true case "F3" => true case "F4" => true case "F5" => true case "F6" => true case "F7" => true
    case "F8" => true case "F9" => true case "F10" => true case "F11" => true case "F12" => true
    case "RIGHTCTRL" => true case "RIGHTALT" => true case "HOME" => true case "UP" => true case "PAGEUP" => true
    case "LEFT" => true case "RIGHT" => true case "END" => true case "DOWN" => true case "PAGEDOWN" => true
    case "INSERT" => true case "DELETE" => true case "LEFTMETA" => true case "META" => true case "RIGHTMETA" => true
    case _ => false
  }

  predicate AsciiAlphanumeric(c: char) {
    'A' <= c <= 'Z' || 'a' <= c <= 'z' || '0' <= c <= '9'
  }

  predicate ValidKeyName(name: string) {
    var key := Normal(name);
    (|key| == 1 && AsciiAlphanumeric(key[0])) || LongName(key)
  }

  // ---------------------------------------------------------------- what the sensor translates

  function LongCode(key: string): Option<u16> {
    match key
    case "ESC" => Some(1) case "ENTER" => Some(28) case "LEFTCTRL" => Some(29) case "CTRL" => Some(29)
    case "LEFTSHIFT" => Some(42) case "SHIFT" => Some(42) case "LEFTALT" => Some(56) case "ALT" => Some(56)
    case "SPACE" => Some(57) case "F1" => Some(59) case "F2" => Some(60) case "F3" => Some(61) case "F4" => Some(62)
    case "F5" => Some(63) case "F6" => Some(64) case "F7" => Some(65) case "F8" => Some(66) case "F9" => Some(67)
    case "F10" => Some(68) case "F11" => Some(87) case "F12" => Some(88) case "RIGHTCTRL" => Some(97)
    case "RIGHTALT" => Some(100) case "HOME" => Some(102) case "UP" => Some(103) case "PAGEUP" => Some(104)
    case "LEFT" => Some(105) case "RIGHT" => Some(106) case "END" => Some(107) case "DOWN" => Some(108)
    case "PAGEDOWN" => Some(109) case "INSERT" => Some(110) case "DELETE" => Some(111) case "LEFTMETA" => Some(125)
    case "META" => Some(125) case "RIGHTMETA" => Some(126)
    case _ => None
  }

  function ShortCode(c: char): Option<u16> {
    match c
    case '1' => Some(2) case '2' => Some(3) case '3' => Some(4) case '4' => Some(5) case '5' => Some(6)
    case '6' => Some(7) case '7' => Some(8) case '8' => Some(9) case '9' => Some(10) case '0' => Some(11)
    case 'Q' => Some(16) case 'W' => Some(17) case 'E' => Some(18) case 'R' => Some(19) case 'T' => Some(20)
    case 'Y' => Some(21) case 'U' => Some(22) case 'I' => Some(23) case 'O' => Some(24) case 'P' => Some(25)
    case 'A' => Some(30) case 'S' => Some(31) case 'D' => Some(32) case 'F' => Some(33) case 'G' => Some(34)
    case 'H' => Some(35) case 'J' => Some(36) case 'K' => Some(37) case 'L' => Some(38) case 'Z' => Some(44)
    case 'X' => Some(45) case 'C' => Some(46) case 'V' => Some(47) case 'B' => Some(48) case 'N' => Some(49)
    case 'M' => Some(50)
    case _ => None
  }

  function KeyCode(name: string): Option<u16> {
    var key := Normal(name);
    if |key| == 1 then ShortCode(key[0]) else LongCode(key)
  }

  // ---------------------------------------------------------------- agreement

  lemma LongNamesAgree(key: string)
    ensures LongName(key) <==> LongCode(key).Some?
    ensures LongName(key) ==> |key| != 1
  {
  }

  lemma ShortNamesAgree(c: char)
    requires UpperChar(c) == c
    ensures AsciiAlphanumeric(c) <==> ShortCode(c).Some?
  {
  }

  lemma NormalIsCapital(name: string)
    ensures forall i | 0 <= i < |Normal(name)| :: UpperChar(Normal(name)[i]) == Normal(name)[i]
  {
    var capital := Upper(TrimEnd(TrimStart(name)));
    assert forall i | 0 <= i < |capital| :: UpperChar(capital[i]) == capital[i];
  }

  lemma {:induction false} TrimStartPadded(pad: string, name: string)
    requires forall i | 0 <= i < |pad| :: WhiteSpace(pad[i])
    ensures TrimStart(pad + name) == TrimStart(name)
  {
    if pad == "" {
      assert pad + name == name;
    } else {
      assert (pad + name)[1..] == pad[1..] + name;
      TrimStartPadded(pad[1..], name);
    }
  }

  lemma {:induction false} TrimEndPadded(name: string, pad: string)
    requires forall i | 0 <= i < |pad| :: WhiteSpace(pad[i])
    ensures TrimEnd(name + pad) == TrimEnd(name)
  {
    if pad == "" {
      assert name + pad == name;
    } else {
      assert (name + pad)[..|name + pad| - 1] == name + pad[..|pad| - 1];
      TrimEndPadded(name, pad[..|pad| - 1]);
    }
  }

  lemma SolidStart(name: string, rest: string)
    requires name != "" && !WhiteSpace(name[0])
    ensures TrimStart(name + rest) == name + rest
  {
    assert (name + rest)[0] == name[0];
  }

  lemma SolidEnd(name: string)
    requires name != "" && !WhiteSpace(name[|name| - 1])
    ensures TrimEnd(name) == name
  {
  }

  /** White space around a name, the case of its letters and the prefix do not matter. */
  lemma SpellingsOfAKey(before: string, name: string, after: string)
    requires (forall i | 0 <= i < |before| :: WhiteSpace(before[i])) && (forall i | 0 <= i < |after| :: WhiteSpace(after[i]))
    requires name != "" && !WhiteSpace(name[0]) && !WhiteSpace(name[|name| - 1])
    ensures Normal(before + (name + after)) == Normal(name)
    ensures Normal(name) == if PREFIX <= Upper(name) then Upper(name)[|PREFIX|..] else Upper(name)
  {
    TrimStartPadded(before, name + after);
    SolidStart(name, after);
    TrimEndPadded(name, after);
    SolidStart(name, "");
    assert name + "" == name;
    SolidEnd(name);
  }

  /** Validation accepts exactly the key names the sensor has a code for. */
  lemma KeyTablesAgree(name: string)
    ensures ValidKeyName(name) <==> KeyCode(name).Some?
  {
    var key := Normal(name);
    LongNamesAgree(key);
    if |key| == 1 {
      NormalIsCapital(name);
      ShortNamesAgree(key[0]);
    }
  }

  function CodesOf(names: seq<string>): seq<Option<u16>> {
    seq(|names|, i requires 0 <= i < |names| => KeyCode(names[i]))
  }

  /** A key sequence that passes validation can be translated as a whole, so its sensor starts. */
  lemma ValidSequenceTranslates(names: seq<string>)
    requires forall name | name in names :: ValidKeyName(name)
    ensures forall i | 0 <= i < |names| :: CodesOf(names)[i].Some?
  {
    forall i | 0 <= i < |names| ensures CodesOf(names)[i].Some? {
      assert names[i] in names;
      KeyTablesAgree(names[i]);
    }
  }
}
