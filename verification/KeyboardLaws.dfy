/** What the keys of the keyboard send: the US layout, character by character. */
module KeyboardLaws {
  import opened Primitives
  import opened Keyboard

  /** What a press of a key sends. */
  function Sent(shift: bool, ctrl: bool, code: u16): seq<u8> {
    Decode(Mods(shift, ctrl), KeyEvent(1, code, 1)).1
  }

  // ----- The layout, by character -----

  function LetterKey(ch: char): u16 {
    match ch
    case 'a' => 30 case 'b' => 48 case 'c' => 46 case 'd' => 32 case 'e' => 18 case 'f' => 33 case 'g' => 34
    case 'h' => 35 case 'i' => 23 case 'j' => 36 case 'k' => 37 case 'l' => 38 case 'm' => 50 case 'n' => 49
    case 'o' => 24 case 'p' => 25 case 'q' => 16 case 'r' => 19 case 's' => 31 case 't' => 20 case 'u' => 22
    case 'v' => 47 case 'w' => 17 case 'x' => 45 case 'y' => 21 case 'z' => 44
    case _ => 0
  }

  function DigitKey(ch: char): u16 {
    if ch == '0' then 11 else if '1' <= ch <= '9' then ch as int - '1' as int + 2 else 0
  }

  /** The key of a mark before the digits, and whether it is shifted. */
  function LowMarkKey(ch: char): (u16, bool) {
    match ch
    case '!' => (2, true) case '\"' => (40, true) case '#' => (4, true) case '$' => (5, true)
    case '%' => (6, true) case '&' => (8, true) case '\'' => (40, false) case '(' => (10, true)
    case ')' => (11, true) case '*' => (9, true) case '+' => (13, true) case ',' => (51, false)
    case '-' => (12, false) case '.' => (52, false) case '/' => (53, false)
    case _ => (0, false)
  }

  /** The same for the marks between the digits and the capitals. */
  function MiddleMarkKey(ch: char): (u16, bool) {
    match ch
    case ':' => (39, true) case ';' => (39, false) case '<' => (51, true) case '=' => (13, false)
    case '>' => (52, true) case '?' => (53, true) case '@' => (3, true)
    case _ => (0, false)
  }

  /** The same for the marks after the capitals. */
  function HighMarkKey(ch: char): (u16, bool) {
    match ch
    case '[' => (26, false) case '\\' => (43, false) case ']' => (27, false) case '^' => (7, true)
    case '_' => (12, true) case '`' => (41, false) case '{' => (26, true) case '|' => (43, true)
    case '}' => (27, true) case '~' => (41, true)
    case _ => (0, false)
  }

  function KeyOf(ch: char): (u16, bool) {
    if 'a' <= ch <= 'z' then (LetterKey(ch), false)
    else if 'A' <= ch <= 'Z' then (LetterKey((ch as int + 32) as char), true)
    else if ch < '0' then LowMarkKey(ch)
    else if ch <= '9' then (DigitKey(ch), false)
    else if ch <= '@' then MiddleMarkKey(ch)
    else HighMarkKey(ch)
  }

  lemma EarlyLetterIsSent(ch: char)
    requires 'a' <= ch <= 'm'
    ensures Sent(false, false, LetterKey(ch)) == [ch as int]
  {
  }

  lemma LateLetterIsSent(ch: char)
    requires 'n' <= ch <= 'z'
    ensures Sent(false, false, LetterKey(ch)) == [ch as int]
  {
  }

  lemma LetterIsSent(ch: char)
    requires 'a' <= ch <= 'z'
    ensures Sent(false, false, LetterKey(ch)) == [ch as int]
  {
    if ch <= 'm' {
      EarlyLetterIsSent(ch);
    } else {
      LateLetterIsSent(ch);
    }
  }

  lemma LowMarkIsSent(ch: char)
    requires '!' <= ch <= '/'
    ensures var (code, shift) := LowMarkKey(ch); Sent(shift, false, code) == [ch as int]
  {
  }

  lemma DigitIsSent(ch: char)
    requires '0' <= ch <= '9'
    ensures Sent(false, false, DigitKey(ch)) == [ch as int]
  {
  }

  lemma MiddleMarkIsSent(ch: char)
    requires ':' <= ch <= '@'
    ensures var (code, shift) := MiddleMarkKey(ch); Sent(shift, false, code) == [ch as int]
  {
  }

  lemma HighMarkIsSent(ch: char)
    requires '[' <= ch <= '`' || '{' <= ch <= '~'
    ensures var (code, shift) := HighMarkKey(ch); Sent(shift, false, code) == [ch as int]
  {
  }

  lemma Row1Plain(i: nat)
    requires i < 12
    ensures KeyOf(ROW1.0[i]) == (2 + i, false)
  {
  }

  lemma Row1Shifted(i: nat)
    requires i < 12
    ensures KeyOf(ROW1.1[i]) == (2 + i, true)
  {
  }

  lemma Row2Plain(i: nat)
    requires i < 12
    ensures KeyOf(ROW2.0[i]) == (16 + i, false)
  {
  }

  lemma Row2Shifted(i: nat)
    requires i < 12
    ensures KeyOf(ROW2.1[i]) == (16 + i, true)
  {
  }

  lemma Row3Plain(i: nat)
    requires i < 12
    ensures KeyOf(ROW3.0[i]) == (30 + i, false)
  {
  }

  lemma Row3Shifted(i: nat)
    requires i < 12
    ensures KeyOf(ROW3.1[i]) == (30 + i, true)
  {
  }

  lemma Row4Plain(i: nat)
    requires i < 11
    ensures KeyOf(ROW4.0[i]) == (43 + i, false)
  {
  }

  lemma Row4Shifted(i: nat)
    requires i < 11
    ensures KeyOf(ROW4.1[i]) == (43 + i, true)
  {
  }

  /** With shift it sends the capital. */
  lemma CapitalIsSent(ch: char)
    requires 'a' <= ch <= 'z'
    ensures Sent(true, false, LetterKey(ch)) == [ch as int - 32]
  {
    LetterIsSent(ch);
    ShiftedLetters(LetterKey(ch));
  }

  lemma CharacterIsSent(ch: char)
    requires '!' <= ch <= '~'
    ensures var (code, shift) := KeyOf(ch); Sent(shift, false, code) == [ch as int]
  {
    if 'a' <= ch <= 'z' {
      LetterIsSent(ch);
    } else if 'A' <= ch <= 'Z' {
      CapitalIsSent((ch as int + 32) as char);
    } else if ch <= '/' {
      LowMarkIsSent(ch);
    } else if ch <= '9' {
      DigitIsSent(ch);
    } else if ch <= '@' {
      MiddleMarkIsSent(ch);
    } else {
      HighMarkIsSent(ch);
    }
  }

  lemma SentPlain(code: u16, b: u8)
    requires 0x21 <= b <= 0x7e && Sent(false, false, code) == [b]
    ensures KeyOf(b as char) == (code, false)
  {
    if 2 <= code <= 13 {
      Row1Plain(code - 2);
    } else if 16 <= code <= 27 {
      Row2Plain(code - 16);
    } else if 30 <= code <= 41 {
      Row3Plain(code - 30);
    } else if 43 <= code <= 53 {
      Row4Plain(code - 43);
    }
  }

  lemma SentShifted(code: u16, b: u8)
    requires 0x21 <= b <= 0x7e && Sent(true, false, code) == [b]
    ensures KeyOf(b as char) == (code, true)
  {
    if 2 <= code <= 13 {
      Row1Shifted(code - 2);
    } else if 16 <= code <= 27 {
      Row2Shifted(code - 16);
    } else if 30 <= code <= 41 {
      Row3Shifted(code - 30);
    } else if 43 <= code <= 53 {
      Row4Shifted(code - 43);
    }
  }

  /** Without control, each visible character is sent by exactly one key, with exactly one
      state of shift. */
  lemma OneKeyForEachCharacter(b: u8, code: u16, shift: bool)
    requires 0x21 <= b <= 0x7e
    ensures Sent(shift, false, code) == [b] <==> KeyOf(b as char) == (code, shift)
  {
    CharacterIsSent(b as char);
    if Sent(shift, false, code) == [b] {
      if shift {
        SentShifted(code, b);
      } else {
        SentPlain(code, b);
      }
    }
  }

  // ----- Letters -----

  /** Each small letter has one key. */
  lemma OneLetterKey(b: u8, code: u16)
    requires 0x61 <= b <= 0x7a
    ensures Sent(false, false, code) == [b] <==> code == LetterKey(b as char)
  {
    OneKeyForEachCharacter(b, code, false);
  }

  /** With control, shifted or not, it sends its number in the alphabet. */
  lemma LetterWithControl(ch: char, shift: bool)
    requires 'a' <= ch <= 'z'
    ensures Sent(shift, true, LetterKey(ch)) == [ch as int - 96]
  {
    LetterIsSent(ch);
    CapitalIsSent(ch);
    var b := Sent(shift, false, LetterKey(ch))[0];
    ControlOnLetter(LetterKey(ch), shift, b);
    ControlNumber(b);
  }

  lemma ControlNumber(b: u8)
    requires IsUpper(b) || IsLower(b)
    ensures CtrlOf(b) == b % 32
  {
  }

  lemma ControlOnLetter(code: u16, shift: bool, b: u8)
    requires Sent(shift, false, code) == [b] && (IsUpper(b) || IsLower(b))
    ensures Sent(shift, true, code) == [CtrlOf(b)]
  {
    assert [b] == CharBytes(Mods(shift, false), code);
  }

  /** Control changes only what the letter keys send. */
  lemma ControlChangesLettersOnly(code: u16, shift: bool)
    requires var out := Sent(shift, false, code);
      out != [] && !(0x41 <= out[0] <= 0x5a) && !(0x61 <= out[0] <= 0x7a)
    ensures Sent(shift, true, code) == Sent(shift, false, code)
  {
  }

  // ----- The other keys -----

  /** Backspace, tab, the two enter keys and the space bar, whatever the modifiers. */
  lemma EditingKeys(shift: bool, ctrl: bool)
    ensures Sent(shift, ctrl, 14) == [0x7f] && Sent(shift, ctrl, 15) == [0x09]
    ensures Sent(shift, ctrl, 28) == [0x0a] && Sent(shift, ctrl, 96) == [0x0a]
    ensures Sent(shift, ctrl, 57) == [0x20]
  {
  }

  /** Up, down, right, left, home, end and delete, whatever the modifiers. */
  lemma NavigationKeys(shift: bool, ctrl: bool)
    ensures Sent(shift, ctrl, 103) == [0x1b, 0x5b, 0x41] && Sent(shift, ctrl, 108) == [0x1b, 0x5b, 0x42]
    ensures Sent(shift, ctrl, 106) == [0x1b, 0x5b, 0x43] && Sent(shift, ctrl, 105) == [0x1b, 0x5b, 0x44]
    ensures Sent(shift, ctrl, 102) == [0x1b, 0x5b, 0x48] && Sent(shift, ctrl, 107) == [0x1b, 0x5b, 0x46]
    ensures Sent(shift, ctrl, 111) == [0x1b, 0x5b, 0x33, 0x7e]
  {
  }

  /** No other key sends anything. */
  lemma SilentKeys(shift: bool, ctrl: bool, code: u16)
    requires !(2 <= code <= 28) && !(30 <= code <= 41) && !(43 <= code <= 53)
    requires code !in {57, 96, 102, 103, 105, 106, 107, 108, 111}
    ensures Sent(shift, ctrl, code) == []
  {
  }

  // ----- Other events -----

  /** A repeat sends what a press does; a release, and an event that is no key, nothing. */
  lemma OtherEvents(m: Mods, code: u16, value: int, evType: u16)
    ensures value != 0 ==> Decode(m, KeyEvent(1, code, value)) == Decode(m, KeyEvent(1, code, 1))
    ensures Decode(m, KeyEvent(1, code, 0)).1 == []
    ensures evType != 1 ==> Decode(m, KeyEvent(evType, code, value)) == (m, [])
  {
  }

  /** Shift and control follow their keys, and no other key touches them. */
  lemma ModifierKeys(m: Mods, code: u16, value: int)
    ensures Decode(m, KeyEvent(1, code, value)).0 ==
      if code == 42 || code == 54 then m.(shift := value != 0)
      else if code == 29 || code == 97 then m.(ctrl := value != 0)
      else m
  {
  }
}
