/** Canonical decomposition (Normalization Form D, Unicode Standard Annex
    #15) as `String.prototype.normalize("NFD")` performs it, on the letters of
    the Vietnamese alphabet: each precomposed letter becomes its base letter
    followed by its combining marks in canonical order. */
module Nfd {

  /** The Combining Diacritical Marks block, U+0300..U+036F. */
  predicate IsCombiningMark(c: char) {
    '\U{300}' <= c <= '\U{36F}'
  }

  /** The shape of a table entry: an ASCII base letter followed by one or two
      combining marks. */
  predicate IsLetterDecomposition(d: string) {
    2 <= |d| <= 3 && d[0] < '\U{80}' && IsCombiningMark(d[1]) && (|d| == 3 ==> IsCombiningMark(d[2]))
  }

  /** The full canonical decomposition of one character: the table entry for
      one of the 132 precomposed Vietnamese letters, the character itself for
      everything else (ASCII and combining marks never decompose). */
  function Decompose(c: char): (d: seq<char>)
    ensures d == [c] || IsLetterDecomposition(d)
    ensures c < '\U{80}' || IsCombiningMark(c) ==> d == [c]
  {
    if c < '\U{80}' || IsCombiningMark(c) then [c] else DecomposeLetter(c)
  }

  /** The table itself: the precomposed letters of the Vietnamese alphabet,
      upper and lower case, each vowel with its tone mark and its breve,
      circumflex or horn, split by Unicode block. */
  function DecomposeLetter(c: char): (d: seq<char>)
    ensures d == [c] || IsLetterDecomposition(d)
  {
    if c <= '\U{FF}' then DecomposeLatin1(c)
    else if c <= '\U{1FF}' then DecomposeLatinExtended(c)
    else if c < '\U{1EB8}' then DecomposeVowelA(c)
    else if c < '\U{1ECC}' then DecomposeVowelEI(c)
    else if c < '\U{1EE4}' then DecomposeVowelO(c)
    else DecomposeVowelUY(c)
  }

  /** Latin-1 Supplement: the grave, acute, circumflex and tilde vowels. */
  function DecomposeLatin1(c: char): (d: seq<char>)
    ensures d == [c] || IsLetterDecomposition(d)
  {
    match c
    case 'À' => "A\U{300}"
    case 'Á' => "A\U{301}"
    case 'Â' => "A\U{302}"
    case 'Ã' => "A\U{303}"
    case 'È' => "E\U{300}"
    case 'É' => "E\U{301}"
    case 'Ê' => "E\U{302}"
    case 'Ì' => "I\U{300}"
    case 'Í' => "I\U{301}"
    case 'Ò' => "O\U{300}"
    case 'Ó' => "O\U{301}"
    case 'Ô' => "O\U{302}"
    case 'Õ' => "O\U{303}"
    case 'Ù' => "U\U{300}"
    case 'Ú' => "U\U{301}"
    case 'Ý' => "Y\U{301}"
    case 'à' => "a\U{300}"
    case 'á' => "a\U{301}"
    case 'â' => "a\U{302}"
    case 'ã' => "a\U{303}"
    case 'è' => "e\U{300}"
    case 'é' => "e\U{301}"
    case 'ê' => "e\U{302}"
    case 'ì' => "i\U{300}"
    case 'í' => "i\U{301}"
    case 'ò' => "o\U{300}"
    case 'ó' => "o\U{301}"
    case 'ô' => "o\U{302}"
    case 'õ' => "o\U{303}"
    case 'ù' => "u\U{300}"
    case 'ú' => "u\U{301}"
    case 'ý' => "y\U{301}"
    case _ => [c]
  }

  /** Latin Extended-A and -B: the breve a, tilde i and u, horned o and u. */
  function DecomposeLatinExtended(c: char): (d: seq<char>)
    ensures d == [c] || IsLetterDecomposition(d)
  {
    match c
    case 'Ă' => "A\U{306}"
    case 'ă' => "a\U{306}"
    case 'Ĩ' => "I\U{303}"
    case 'ĩ' => "i\U{303}"
    case 'Ũ' => "U\U{303}"
    case 'ũ' => "u\U{303}"
    case 'Ơ' => "O\U{31B}"
    case 'ơ' => "o\U{31B}"
    case 'Ư' => "U\U{31B}"
    case 'ư' => "u\U{31B}"
    case _ => [c]
  }

  /** Latin Extended Additional, the a vowels. */
  function DecomposeVowelA(c: char): (d: seq<char>)
    ensures d == [c] || IsLetterDecomposition(d)
  {
    match c
    case 'Ạ' => "A\U{323}"
    case 'ạ' => "a\U{323}"
    case 'Ả' => "A\U{309}"
    case 'ả' => "a\U{309}"
    case 'Ấ' => "A\U{302}\U{301}"
    case 'ấ' => "a\U{302}\U{301}"
    case 'Ầ' => "A\U{302}\U{300}"
    case 'ầ' => "a\U{302}\U{300}"
    case 'Ẩ' => "A\U{302}\U{309}"
    case 'ẩ' => "a\U{302}\U{309}"
    case 'Ẫ' => "A\U{302}\U{303}"
    case 'ẫ' => "a\U{302}\U{303}"
    case 'Ậ' => "A\U{323}\U{302}"
    case 'ậ' => "a\U{323}\U{302}"
    case 'Ắ' => "A\U{306}\U{301}"
    case 'ắ' => "a\U{306}\U{301}"
    case 'Ằ' => "A\U{306}\U{300}"
    case 'ằ' => "a\U{306}\U{300}"
    case 'Ẳ' => "A\U{306}\U{309}"
    case 'ẳ' => "a\U{306}\U{309}"
    case 'Ẵ' => "A\U{306}\U{303}"
    case 'ẵ' => "a\U{306}\U{303}"
    case 'Ặ' => "A\U{323}\U{306}"
    case 'ặ' => "a\U{323}\U{306}"
    case _ => [c]
  }

  /** Latin Extended Additional, the e and i vowels. */
  function DecomposeVowelEI(c: char): (d: seq<char>)
    ensures d == [c] || IsLetterDecomposition(d)
  {
    match c
    case 'Ẹ' => "E\U{323}"
    case 'ẹ' => "e\U{323}"
    case 'Ẻ' => "E\U{309}"
    case 'ẻ' => "e\U{309}"
    case 'Ẽ' => "E\U{303}"
    case 'ẽ' => "e\U{303}"
    case 'Ế' => "E\U{302}\U{301}"
    case 'ế' => "e\U{302}\U{301}"
    case 'Ề' => "E\U{302}\U{300}"
    case 'ề' => "e\U{302}\U{300}"
    case 'Ể' => "E\U{302}\U{309}"
    case 'ể' => "e\U{302}\U{309}"
    case 'Ễ' => "E\U{302}\U{303}"
    case 'ễ' => "e\U{302}\U{303}"
    case 'Ệ' => "E\U{323}\U{302}"
    case 'ệ' => "e\U{323}\U{302}"
    case 'Ỉ' => "I\U{309}"
    case 'ỉ' => "i\U{309}"
    case 'Ị' => "I\U{323}"
    case 'ị' => "i\U{323}"
    case _ => [c]
  }

  /** Latin Extended Additional, the o vowels. */
  function DecomposeVowelO(c: char): (d: seq<char>)
    ensures d == [c] || IsLetterDecomposition(d)
  {
    match c
    case 'Ọ' => "O\U{323}"
    case 'ọ' => "o\U{323}"
    case 'Ỏ' => "O\U{309}"
    case 'ỏ' => "o\U{309}"
    case 'Ố' => "O\U{302}\U{301}"
    case 'ố' => "o\U{302}\U{301}"
    case 'Ồ' => "O\U{302}\U{300}"
    case 'ồ' => "o\U{302}\U{300}"
    case 'Ổ' => "O\U{302}\U{309}"
    case 'ổ' => "o\U{302}\U{309}"
    case 'Ỗ' => "O\U{302}\U{303}"
    case 'ỗ' => "o\U{302}\U{303}"
    case 'Ộ' => "O\U{323}\U{302}"
    case 'ộ' => "o\U{323}\U{302}"
    case 'Ớ' => "O\U{31B}\U{301}"
    case 'ớ' => "o\U{31B}\U{301}"
    case 'Ờ' => "O\U{31B}\U{300}"
    case 'ờ' => "o\U{31B}\U{300}"
    case 'Ở' => "O\U{31B}\U{309}"
    case 'ở' => "o\U{31B}\U{309}"
    case 'Ỡ' => "O\U{31B}\U{303}"
    case 'ỡ' => "o\U{31B}\U{303}"
    case 'Ợ' => "O\U{31B}\U{323}"
    case 'ợ' => "o\U{31B}\U{323}"
    case _ => [c]
  }

  /** Latin Extended Additional, the u and y vowels. */
  function DecomposeVowelUY(c: char): (d: seq<char>)
    ensures d == [c] || IsLetterDecomposition(d)
  {
    match c
    case 'Ụ' => "U\U{323}"
    case 'ụ' => "u\U{323}"
    case 'Ủ' => "U\U{309}"
    case 'ủ' => "u\U{309}"
    case 'Ứ' => "U\U{31B}\U{301}"
    case 'ứ' => "u\U{31B}\U{301}"
    case 'Ừ' => "U\U{31B}\U{300}"
    case 'ừ' => "u\U{31B}\U{300}"
    case 'Ử' => "U\U{31B}\U{309}"
    case 'ử' => "u\U{31B}\U{309}"
    case 'Ữ' => "U\U{31B}\U{303}"
    case 'ữ' => "u\U{31B}\U{303}"
    case 'Ự' => "U\U{31B}\U{323}"
    case 'ự' => "u\U{31B}\U{323}"
    case 'Ỳ' => "Y\U{300}"
    case 'ỳ' => "y\U{300}"
    case 'Ỵ' => "Y\U{323}"
    case 'ỵ' => "y\U{323}"
    case 'Ỷ' => "Y\U{309}"
    case 'ỷ' => "y\U{309}"
    case 'Ỹ' => "Y\U{303}"
    case 'ỹ' => "y\U{303}"
    case _ => [c]
  }

  /** `s.normalize("NFD")` over the table: every character replaced by its
      decomposition, in order. */
  function Normalize(s: string): (r: string)
    ensures |s| <= |r| <= 3 * |s|
  {
    if s == [] then [] else Decompose(s[0]) + Normalize(s[1..])
  }

  /** Decomposition works character by character, so NFD distributes over
      concatenation (true of the modelled letters, which have no marks to
      reorder). */
  lemma {:induction false} NormalizeConcat(a: string, b: string)
    ensures Normalize(a + b) == Normalize(a) + Normalize(b)
  {
    if a != [] {
      assert (a + b)[0] == a[0];
      assert (a + b)[1..] == a[1..] + b;
      NormalizeConcat(a[1..], b);
    } else {
      assert a + b == b;
    }
  }

  /** NFD of a single character is its decomposition. */
  lemma NormalizeSingle(c: char)
    ensures Normalize([c]) == Decompose(c)
  {
    assert [c][1..] == [];
  }

  /** A string whose characters do not decompose is already in NFD. */
  lemma {:induction false} NormalizeFixed(s: string)
    requires IsStable(s)
    ensures Normalize(s) == s
  {
    if s != [] {
      assert IsStable(s[1..]) by {
        forall i | 0 <= i < |s[1..]| ensures Decompose(s[1..][i]) == [s[1..][i]] {
          assert s[1..][i] == s[i + 1];
        }
      }
      NormalizeFixed(s[1..]);
    }
  }

  /** No character of `s` decomposes any further. */
  predicate IsStable(s: string) {
    forall i :: 0 <= i < |s| ==> Decompose(s[i]) == [s[i]]
  }

  /** NFD output is stable. */
  lemma {:induction false} NormalizeStable(s: string)
    ensures IsStable(Normalize(s))
  {
    if s != [] {
      NormalizeStable(s[1..]);
      DecompositionStable(s[0]);
      StableConcat(Decompose(s[0]), Normalize(s[1..]));
    }
  }

  lemma StableConcat(a: string, b: string)
    requires IsStable(a) && IsStable(b)
    ensures IsStable(a + b)
  {
    forall i | 0 <= i < |a + b| ensures Decompose((a + b)[i]) == [(a + b)[i]] {
      if i < |a| { assert (a + b)[i] == a[i]; } else { assert (a + b)[i] == b[i - |a|]; }
    }
  }

  /** Each character of a decomposition decomposes to itself. */
  lemma DecompositionStable(c: char)
    ensures IsStable(Decompose(c))
  {
    var d := Decompose(c);
    if d != [c] {
      LetterDecompositionStable(d);
    }
  }

  /** The base letter and the marks of a table entry never decompose. */
  lemma LetterDecompositionStable(d: string)
    requires IsLetterDecomposition(d)
    ensures IsStable(d)
  {
    forall k | 0 <= k < |d| ensures Decompose(d[k]) == [d[k]] {
      assert d[k] < '\U{80}' || IsCombiningMark(d[k]);
    }
  }

  /** ASCII letters and combining marks are their own decomposition. */
  lemma BaseAndMarksFixed(x: char)
    requires x < '\U{80}' || IsCombiningMark(x)
    ensures Decompose(x) == [x]
  {
  }
}
