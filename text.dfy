/** The string operations the place shaping uses: `str.replace` of one
    character, `str.title` and `str.join`, on ASCII text. */
module Text {

  predicate IsUpper(c: char) { 'A' <= c <= 'Z' }
  predicate IsLower(c: char) { 'a' <= c <= 'z' }

  /** A cased character, in the sense of `str.title`. */
  predicate IsLetter(c: char) { IsUpper(c) || IsLower(c) }

  function ToUpper(c: char): (u: char)
    ensures IsLetter(c) ==> IsUpper(u)
    ensures !IsLower(c) ==> u == c
  {
    if IsLower(c) then (c as int - 32) as char else c
  }

  function ToLower(c: char): (l: char)
    ensures IsLetter(c) ==> IsLower(l)
    ensures !IsUpper(c) ==> l == c
  {
    if IsUpper(c) then (c as int + 32) as char else c
  }

  /** Every occurrence of `from` in `s` replaced by `to`. */
  function ReplaceChar(s: string, from: char, to: char): (r: string)
    ensures |r| == |s|
    ensures forall i :: 0 <= i < |s| ==> r[i] == (if s[i] == from then to else s[i])
    ensures from != to ==> from !in r
  {
    if s == [] then "" else [if s[0] == from then to else s[0]] + ReplaceChar(s[1..], from, to)
  }

  /** `str.title` on one character, given whether the character before it was
      cased: a letter is upper-cased after an uncased character and lower-cased
      after a cased one; any other character is kept. */
  function TitleChar(c: char, prevCased: bool): char
  {
    if !IsLetter(c) then c else if prevCased then ToLower(c) else ToUpper(c)
  }

  /** `str.title` on the rest of a string, given whether the character before
      it was cased. */
  function TitleFrom(s: string, prevCased: bool): string
  {
    if s == [] then "" else [TitleChar(s[0], prevCased)] + TitleFrom(s[1..], IsLetter(s[0]))
  }

  function Title(s: string): string
  {
    TitleFrom(s, false)
  }

  /** The title-cased form of position `i` of `s`, stated on its own: a letter
      that begins a word (at the start, or after a non-letter) is upper case,
      every other letter lower case, and every non-letter is unchanged. */
  function TitleCharAt(s: string, i: nat): char
    requires i < |s|
  {
    if !IsLetter(s[i]) then s[i]
    else if i > 0 && IsLetter(s[i - 1]) then ToLower(s[i])
    else ToUpper(s[i])
  }

  lemma {:induction false} TitleFromLength(s: string, prevCased: bool)
    ensures |TitleFrom(s, prevCased)| == |s|
  {
    if s != [] {
      TitleFromLength(s[1..], IsLetter(s[0]));
    }
  }

  lemma {:induction false} TitleFromAt(s: string, prevCased: bool, i: nat)
    requires i < |s|
    ensures |TitleFrom(s, prevCased)| == |s|
    ensures TitleFrom(s, prevCased)[i] == TitleChar(s[i], if i == 0 then prevCased else IsLetter(s[i - 1]))
    decreases |s|
  {
    TitleFromLength(s, prevCased);
    if i > 0 {
      TitleFromAt(s[1..], IsLetter(s[0]), i - 1);
      if i > 1 {
        assert s[1..][i - 2] == s[i - 1];
      }
    }
  }

  /** `str.title` keeps the length and changes each character as `TitleCharAt` says. */
  lemma TitleSpec(s: string)
    ensures |Title(s)| == |s|
    ensures forall i :: 0 <= i < |s| ==> Title(s)[i] == TitleCharAt(s, i)
  {
    TitleFromLength(s, false);
    forall i | 0 <= i < |s|
      ensures Title(s)[i] == TitleCharAt(s, i)
    {
      TitleFromAt(s, false, i);
    }
  }

  /** `sep.join(items)`. */
  function Join(sep: string, items: seq<string>): string
  {
    if items == [] then ""
    else if |items| == 1 then items[0]
    else items[0] + sep + Join(sep, items[1..])
  }

  /** The first `n` items, as the slice `items[:n]` gives them. */
  function Take<T>(items: seq<T>, n: nat): (r: seq<T>)
    ensures |r| == if |items| < n then |items| else n
    ensures forall i :: 0 <= i < |r| ==> r[i] == items[i]
  {
    if |items| <= n then items else items[..n]
  }
}
