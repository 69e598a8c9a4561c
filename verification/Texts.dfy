/** Text helpers shared by link targets and task metadata. */
module Texts {

  /** What the text functions take from Unicode tables. */
  datatype Text = Text(lower: string -> string, white: char -> bool, alphanumeric: char -> bool, alphabetic: char -> bool)

  function TrimEnd(text: Text, s: string): string {
    if s != "" && text.white(s[|s| - 1]) then TrimEnd(text, s[..|s| - 1]) else s
  }

  function TrimStart(text: Text, s: string): string {
    if s != "" && text.white(s[0]) then TrimStart(text, s[1..]) else s
  }

  function Trim(text: Text, s: string): string {
    TrimEnd(text, TrimStart(text, s))
  }

  function AsciiLower(s: string): string {
    seq(|s|, i requires 0 <= i < |s| => if 'A' <= s[i] <= 'Z' then s[i] - 'A' + 'a' else s[i])
  }

  predicate StartsWith(s: string, prefix: string) {
    |prefix| <= |s| && s[..|prefix|] == prefix
  }
}
