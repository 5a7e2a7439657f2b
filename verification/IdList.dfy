/** The list of ids in the body of a bulk delete: joined by the client with newlines, and
    parsed by the server line by line. */
module IdList {
  import opened Base
  import opened Text

  /** Text that names something and has no white space. */
  predicate IsWord(s: string) {
    s != [] && forall i :: 0 <= i < |s| ==> !IsSpace(s[i])
  }

  /** What one line adds to the list. */
  function Parsed(line: string): seq<string> {
    if Trim(line) == "" then [] else [Trim(line)]
  }

  /** The trimmed lines that are not blank. */
  function ParseLines(lines: seq<string>): seq<string> {
    if lines == [] then []
    else Parsed(lines[0]) + ParseLines(lines[1..])
  }

  /** The ids that words stand for; one that is none refuses them all. `parse` is the
      constructor of the UUID library. */
  function Identify(parse: string -> Option<Uuid>, words: seq<string>): Result<seq<Uuid>> {
    if words == [] then Ok([])
    else
      match parse(words[0])
      case None => Err(InvalidId)
      case Some(id) => Behind([id], Identify(parse, words[1..]))
  }

  /** Puts ids in front of those of a result. */
  function Behind(ids: seq<Uuid>, rest: Result<seq<Uuid>>): Result<seq<Uuid>> {
    match rest
    case Ok(more) => Ok(ids + more)
    case Err(e) => Err(e)
  }

  function ParseIds(parse: string -> Option<Uuid>, body: string): Result<seq<Uuid>> {
    Identify(parse, ParseLines(Split(body, '\n')))
  }

  lemma ParseStep(parse: string -> Option<Uuid>, ids: seq<Uuid>, lines: seq<string>, i: nat)
    requires i < |lines|
    ensures var rest, trimmed := Identify(parse, ParseLines(lines[i + 1..])), Trim(lines[i]);
            Behind(ids, Identify(parse, ParseLines(lines[i..])))
            == if trimmed == "" then Behind(ids, rest)
               else if parse(trimmed).None? then Err(InvalidId)
               else Behind(ids + [parse(trimmed).value], rest)
  {
    var tail, rest := lines[i..], ParseLines(lines[i + 1..]);
    assert tail[0] == lines[i] && tail[1..] == lines[i + 1..];
    assert ParseLines(tail) == Parsed(lines[i]) + rest;
    if Trim(lines[i]) == "" {
      assert ParseLines(tail) == rest;
    } else {
      assert ParseLines(tail)[1..] == rest;
      var id := parse(Trim(lines[i]));
      if id.Some? && Identify(parse, rest).Ok? {
        var more := Identify(parse, rest).value;
        assert ids + ([id.value] + more) == ids + [id.value] + more;
      }
    }
  }

  /** The server's loop over the lines of the body. */
  method ReadIds(parse: string -> Option<Uuid>, body: string) returns (result: Result<seq<Uuid>>)
    ensures result == ParseIds(parse, body)
  {
    var lines := Split(body, '\n');
    var ids: seq<Uuid> := [];
    assert lines[0..] == lines;
    BehindNothing(ParseIds(parse, body));
    for i := 0 to |lines|
      invariant Behind(ids, Identify(parse, ParseLines(lines[i..]))) == ParseIds(parse, body)
    {
      ParseStep(parse, ids, lines, i);
      var trimmed := Trim(lines[i]);
      if trimmed != "" {
        match parse(trimmed)
        case None => return Err(InvalidId);
        case Some(id) => ids := ids + [id];
      }
    }
    result := Ok(ids);
    assert ids + [] == ids;
  }

  lemma BehindNothing(result: Result<seq<Uuid>>)
    ensures Behind([], result) == result
  {
    if result.Ok? {
      assert [] + result.value == result.value;
    }
  }

  /** Words are refused exactly when one of them is no id. */
  lemma {:induction false} RefusedExactly(parse: string -> Option<Uuid>, words: seq<string>)
    ensures Identify(parse, words).Err? <==> exists word :: word in words && parse(word).None?
    ensures Identify(parse, words).Ok? ==>
              var ids := Identify(parse, words).value;
              |ids| == |words| && forall i :: 0 <= i < |words| ==> parse(words[i]) == Some(ids[i])
    decreases |words|
  {
    if words != [] {
      RefusedExactly(parse, words[1..]);
    }
  }

  // Trimming

  lemma {:induction false} TrimLeftPadding(pad: string, s: string)
    requires IsBlank(pad) && (s != [] ==> !IsSpace(s[0]))
    ensures TrimLeft(pad + s) == s
    decreases |pad|
  {
    if pad == [] {
      assert pad + s == s;
    } else {
      assert (pad + s)[1..] == pad[1..] + s;
      TrimLeftPadding(pad[1..], s);
    }
  }

  lemma {:induction false} TrimRightPadding(s: string, pad: string)
    requires IsBlank(pad) && (s != [] ==> !IsSpace(s[|s| - 1]))
    ensures TrimRight(s + pad) == s
    decreases |pad|
  {
    if pad == [] {
      assert s + pad == s;
    } else {
      var init := pad[..|pad| - 1];
      assert (s + pad)[..|s + pad| - 1] == s + init;
      TrimRightPadding(s, init);
    }
  }

  lemma TrimBlank(s: string)
    requires IsBlank(s)
    ensures Trim(s) == ""
  {
    TrimLeftPadding(s, "");
    assert s + "" == s;
  }

  lemma TrimPadded(before: string, word: string, after: string)
    requires IsBlank(before) && IsBlank(after) && IsWord(word)
    ensures Trim(before + word + after) == word
  {
    assert before + word + after == before + (word + after);
    TrimLeftPadding(before, word + after);
    TrimRightPadding(word, after);
  }

  // Splitting undoes joining

  predicate OneLine(s: string) {
    forall i :: 0 <= i < |s| ==> s[i] != '\n'
  }

  lemma {:induction false} SplitLine(s: string)
    requires OneLine(s)
    ensures Split(s, '\n') == [s]
    decreases |s|
  {
    if s != [] {
      SplitLine(s[1..]);
      assert [s[0]] + s[1..] == s;
    }
  }

  lemma {:induction false} SplitFirstLine(s: string, rest: string)
    requires OneLine(s)
    ensures Split(s + ['\n'] + rest, '\n') == [s] + Split(rest, '\n')
    decreases |s|
  {
    var all := s + ['\n'] + rest;
    if s == [] {
      assert all[1..] == rest;
    } else {
      assert all[1..] == s[1..] + ['\n'] + rest;
      SplitFirstLine(s[1..], rest);
      assert [s[0]] + s[1..] == s;
    }
  }

  lemma {:induction false} SplitJoin(lines: seq<string>)
    requires lines != [] && forall i :: 0 <= i < |lines| ==> OneLine(lines[i])
    ensures Split(Join(lines, '\n'), '\n') == lines
    decreases |lines|
  {
    if |lines| == 1 {
      SplitLine(lines[0]);
    } else {
      SplitJoin(lines[1..]);
      SplitFirstLine(lines[0], Join(lines[1..], '\n'));
    }
  }

  /** Joining is in order, with one separator between any two neighbours. */
  lemma {:induction false} JoinConcat(a: seq<string>, b: seq<string>, sep: char)
    requires a != [] && b != []
    ensures Join(a + b, sep) == Join(a, sep) + [sep] + Join(b, sep)
    ensures Join([a[0]], sep) == a[0]
    decreases |a|
  {
    assert (a + b)[1..] == a[1..] + b;
    if |a| == 1 {
      assert a[1..] + b == b;
    } else {
      JoinConcat(a[1..], b, sep);
    }
  }

  // The round trip

  /** `lines` are the words in order, each with white space around it, and blank lines. */
  ghost predicate Decorates(lines: seq<string>, words: seq<string>)
    decreases |lines|
  {
    if lines == [] then
      words == []
    else
      || (IsBlank(lines[0]) && Decorates(lines[1..], words))
      || (words != [] && Padded(lines[0], words[0]) && Decorates(lines[1..], words[1..]))
  }

  ghost predicate Padded(line: string, word: string) {
    exists before, after :: IsBlank(before) && IsBlank(after) && line == before + word + after
  }

  lemma {:induction false} DecorationIsIgnored(lines: seq<string>, words: seq<string>)
    requires forall i :: 0 <= i < |words| ==> IsWord(words[i])
    requires Decorates(lines, words)
    ensures ParseLines(lines) == words
    decreases |lines|
  {
    if lines != [] {
      if IsBlank(lines[0]) && Decorates(lines[1..], words) {
        TrimBlank(lines[0]);
        DecorationIsIgnored(lines[1..], words);
      } else {
        var before, after :| IsBlank(before) && IsBlank(after) && lines[0] == before + words[0] + after;
        TrimPadded(before, words[0], after);
        DecorationIsIgnored(lines[1..], words[1..]);
      }
    }
  }

  /** Added blank lines and surrounding white space do not change what is parsed. */
  lemma NoiseIsIgnored(parse: string -> Option<Uuid>, lines: seq<string>, words: seq<string>)
    requires forall i :: 0 <= i < |words| ==> IsWord(words[i])
    requires forall i :: 0 <= i < |lines| ==> OneLine(lines[i])
    requires Decorates(lines, words)
    ensures ParseIds(parse, Join(lines, '\n')) == Identify(parse, words)
  {
    DecorationIsIgnored(lines, words);
    if lines == [] {
      SplitLine("");
      TrimBlank("");
      assert ParseLines([""]) == [];
    } else {
      SplitJoin(lines);
    }
  }

  /** Lines may end in a carriage return as well. */
  lemma {:induction false} ReturnsDecorate(words: seq<string>, lines: seq<string>)
    requires |lines| == |words| && forall i :: 0 <= i < |words| ==> lines[i] == words[i] + "\r"
    ensures Decorates(lines, words)
    decreases |words|
  {
    if words != [] {
      assert Padded(lines[0], words[0]) by {
        assert IsBlank("") && IsBlank("\r") && lines[0] == "" + words[0] + "\r";
      }
      ReturnsDecorate(words[1..], lines[1..]);
    }
  }

  lemma CarriageReturnsAreIgnored(parse: string -> Option<Uuid>, words: seq<string>, lines: seq<string>)
    requires forall i :: 0 <= i < |words| ==> IsWord(words[i])
    requires |lines| == |words| && forall i :: 0 <= i < |words| ==> lines[i] == words[i] + "\r"
    ensures ParseIds(parse, Join(lines, '\n')) == Identify(parse, words)
  {
    ReturnsDecorate(words, lines);
    NoiseIsIgnored(parse, lines, words);
  }

  lemma {:induction false} WordsDecorateThemselves(words: seq<string>)
    requires forall i :: 0 <= i < |words| ==> IsWord(words[i])
    ensures Decorates(words, words)
    decreases |words|
  {
    if words != [] {
      assert Padded(words[0], words[0]) by {
        assert IsBlank("") && words[0] == "" + words[0] + "";
      }
      WordsDecorateThemselves(words[1..]);
    }
  }

  function Texts(ids: seq<Uuid>): seq<string> {
    seq(|ids|, i requires 0 <= i < |ids| => ids[i].text)
  }

  lemma {:induction false} TextsIdentify(parse: string -> Option<Uuid>, ids: seq<Uuid>)
    requires forall id :: id in ids ==> parse(id.text) == Some(id)
    ensures Identify(parse, Texts(ids)) == Ok(ids)
    decreases |ids|
  {
    if ids != [] {
      TextsIdentify(parse, ids[1..]);
      assert Texts(ids)[1..] == Texts(ids[1..]);
      assert [ids[0]] + ids[1..] == ids;
    }
  }

  /** What the client lists is what the server parses, for a UUID library that reads what
      it prints. */
  lemma ListRoundTrip(parse: string -> Option<Uuid>, ids: seq<Uuid>)
    requires forall id :: id in ids ==> IsWord(id.text) && parse(id.text) == Some(id)
    ensures ParseIds(parse, Join(Texts(ids), '\n')) == Ok(ids)
  {
    WordsDecorateThemselves(Texts(ids));
    NoiseIsIgnored(parse, Texts(ids), Texts(ids));
    TextsIdentify(parse, ids);
  }
}
