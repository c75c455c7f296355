/** What the readers and printers of room and object files share. */
module Inputs {
  import opened Text
  import opened Pieces

  /** An open file, read line by line. */
  class Input {
    var rest: string

    constructor (text: string)
      ensures rest == text
    {
      rest := text;
    }

    method Gets() returns (line: string)
      requires rest != ""
      modifies this
      ensures Split(line, rest) == GetLine(old(rest))
      ensures |rest| < |old(rest)|
    {
      var next := GetLine(rest);
      line, rest := next.line, next.rest;
    }

    /** The tilde string whose first line has been read already. */
    method ReadTildeStr(initialLine: string) returns (text: string)
      modifies this
      ensures Split(text, rest) == ReadTilde(initialLine, old(rest))
      ensures |rest| <= |old(rest)|
    {
      var result := initialLine;
      if '~' !in result {
        while rest != ""
          invariant '~' !in result
          invariant CollectToTilde(result, rest) == CollectToTilde(initialLine, old(rest))
          invariant |rest| <= |old(rest)|
          decreases |rest|
        {
          var line := Gets();
          InThree('~', result, "\n", line);
          result := result + "\n" + line;
          if '~' in line {
            break;
          }
        }
      }
      text := StripTildes(result);
    }
  }

  /** Adds a text section to a growing record, unless the text is empty. */
  method AddSection(before: string, letter: string, text: string, ghost ps: seq<Piece>) returns (result: string)
    requires before == Render(ps)
    ensures result == Render(ps + Section(letter, text))
  {
    result := before;
    SectionText(ps, letter, text);
    if text != "" {
      result := result + (letter + "\n") + text + "~\n";
    }
  }
}
