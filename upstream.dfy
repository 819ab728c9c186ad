/**
  One call to the random-number API, as seen by `calculations`: the reply is
  classified (transport failure, non-200 status, 200 with a body) and a 200
  body is parsed line by line into integers, all or nothing.
 */
module Upstream {
  import opened Wrappers
  import opened GoStrings
  import opened GoStrconv

  /** What `http.Get` hands back for one call. */
  datatype Reply =
    | Unreachable
    | Response(status: int, body: string)

  /** Why one call failed; each aborts the whole batch loop. */
  datatype UpstreamError =
    /** the transport error of `http.Get` */
    | Unavailable
    /** a status other than 200; Go's error text is the body */
    | Rejected(body: string)
    /** the first trimmed line `Atoi` rejects */
    | Malformed(line: string)

  /** The lines of `lines[..]` that are not blank, trimmed, in order. */
  function NonBlankLines(lines: seq<string>): seq<string> {
    if lines == [] then []
    else
      var line := TrimSpace(lines[|lines| - 1]);
      NonBlankLines(lines[..|lines| - 1]) + (if line == "" then [] else [line])
  }

  /** The numbers of a body's lines: blank lines are skipped, every other
      trimmed line must pass `Atoi`, and the first that does not is the error. */
  function ParseLines(lines: seq<string>): Result<seq<int>, string> {
    if lines == [] then Ok([])
    else
      match ParseLines(lines[..|lines| - 1])
      case Err(e) => Err(e)
      case Ok(numbers) =>
        var line := TrimSpace(lines[|lines| - 1]);
        if line == "" then Ok(numbers)
        else
          match Atoi(line)
          case None => Err(line)
          case Some(num) => Ok(numbers + [num])
  }

  /** The body-parsing loop of `calculations`: split on "\n", trim each
      line, skip blank ones, `Atoi` the rest, return on the first error. */
  method ParseBody(body: string) returns (r: Result<seq<int>, string>)
    ensures r == ParseLines(Split(body, '\n'))
  {
    var lines := Split(body, '\n');
    var numbers: seq<int> := [];
    for i := 0 to |lines|
      invariant ParseLines(lines[..i]) == Ok(numbers)
    {
      assert lines[..i + 1][..i] == lines[..i];
      var line := TrimSpace(lines[i]);
      if line == "" {
        continue;
      }
      var num := Atoi(line);
      if num.None? {
        assert ParseLines(lines[..i + 1]) == Err(line);
        ParseLinesErrPersists(lines, i + 1);
        return Err(line);
      }
      numbers := numbers + [num.value];
    }
    assert lines[..|lines|] == lines;
    return Ok(numbers);
  }

  /** One upstream call: the status check, then the body parse. */
  function Fetch(reply: Reply): Result<seq<int>, UpstreamError> {
    match reply
    case Unreachable => Err(Unavailable)
    case Response(status, body) =>
      if status != 200 then Err(Rejected(body))
      else
        match ParseLines(Split(body, '\n'))
        case Err(line) => Err(Malformed(line))
        case Ok(numbers) => Ok(numbers)
  }

  /** One iteration of the batch loop of `calculations` up to its append:
      a transport error or a status other than 200 fails, otherwise the body is parsed. */
  method FetchBatch(reply: Reply) returns (r: Result<seq<int>, UpstreamError>)
    ensures r == Fetch(reply)
  {
    match reply
    case Unreachable =>
      return Err(Unavailable);
    case Response(status, body) =>
      if status != 200 {
        return Err(Rejected(body));
      }
      var numbers := ParseBody(body);
      if numbers.Err? {
        return Err(Malformed(numbers.error));
      }
      return Ok(numbers.value);
  }

  /** Once a prefix of the lines has failed, the whole body fails with the same line. */
  lemma {:induction false} ParseLinesErrPersists(lines: seq<string>, i: nat)
    requires i <= |lines| && ParseLines(lines[..i]).Err?
    ensures ParseLines(lines) == ParseLines(lines[..i])
  {
    if i < |lines| {
      var init := lines[..|lines| - 1];
      assert init[..i] == lines[..i];
      ParseLinesErrPersists(init, i);
    } else {
      assert lines[..i] == lines;
    }
  }

  /** `Atoi` over trimmed non-blank lines, stopping at the first it rejects. */
  function ParseWords(words: seq<string>): Result<seq<int>, string> {
    if words == [] then Ok([])
    else
      match ParseWords(words[..|words| - 1])
      case Err(e) => Err(e)
      case Ok(numbers) =>
        match Atoi(words[|words| - 1])
        case None => Err(words[|words| - 1])
        case Some(num) => Ok(numbers + [num])
  }

  /** Parsing the lines is parsing their non-blank trimmed words. */
  lemma {:induction false} ParseLinesWords(lines: seq<string>)
    ensures ParseLines(lines) == ParseWords(NonBlankLines(lines))
  {
    if lines != [] {
      var init := lines[..|lines| - 1];
      var line := TrimSpace(lines[|lines| - 1]);
      ParseLinesWords(init);
      var words := NonBlankLines(lines);
      var prev := NonBlankLines(init);
      if line == "" {
        assert words == prev;
        assert ParseLines(lines) == ParseLines(init);
      } else {
        assert words == prev + [line];
        assert words[..|words| - 1] == prev;
        assert ParseWords(words) == match ParseWords(prev)
          case Err(e) => Err(e)
          case Ok(numbers) => (match Atoi(line)
            case None => Err(line)
            case Some(num) => Ok(numbers + [num]));
      }
    }
  }

  /** `words[k]` is the first of `words` that `Atoi` rejects. */
  predicate FirstRejected(words: seq<string>, k: int) {
    0 <= k < |words| && Atoi(words[k]).None? && forall j :: 0 <= j < k ==> Atoi(words[j]).Some?
  }

  lemma {:induction false} ParseWordsOk(words: seq<string>)
    ensures ParseWords(words).Ok? <==> forall k :: 0 <= k < |words| ==> Atoi(words[k]).Some?
    ensures ParseWords(words).Ok? ==>
      |ParseWords(words).value| == |words|
      && forall k :: 0 <= k < |words| ==> Atoi(words[k]) == Some(ParseWords(words).value[k])
  {
    if words != [] {
      var init := words[..|words| - 1];
      ParseWordsOk(init);
      assert forall k :: 0 <= k < |init| ==> words[k] == init[k];
    }
  }

  lemma {:induction false} ParseWordsErr(words: seq<string>)
    ensures ParseWords(words).Err? ==> exists k :: FirstRejected(words, k) && words[k] == ParseWords(words).error
  {
    if words != [] {
      var init := words[..|words| - 1];
      assert forall k :: 0 <= k < |init| ==> words[k] == init[k];
      if ParseWords(init).Err? {
        ParseWordsErr(init);
        var k :| FirstRejected(init, k) && init[k] == ParseWords(init).error;
        assert FirstRejected(words, k);
      } else if ParseWords(words).Err? {
        ParseWordsOk(init);
        assert FirstRejected(words, |init|);
      }
    }
  }

  /** Parsing succeeds exactly when every non-blank trimmed line passes
      `Atoi`; then there is one number per such line, in body order, each the
      value of its line. On failure the error is the first such line that `Atoi` rejects. */
  lemma ParseLinesMeaning(lines: seq<string>)
    ensures var words := NonBlankLines(lines);
      ParseLines(lines).Ok? <==> forall k :: 0 <= k < |words| ==> Atoi(words[k]).Some?
    ensures var words := NonBlankLines(lines);
      ParseLines(lines).Ok? ==>
        |ParseLines(lines).value| == |words|
        && forall k :: 0 <= k < |words| ==> Atoi(words[k]) == Some(ParseLines(lines).value[k])
    ensures var words := NonBlankLines(lines);
      ParseLines(lines).Err? ==> exists k :: FirstRejected(words, k) && words[k] == ParseLines(lines).error
  {
    ParseLinesWords(lines);
    ParseWordsOk(NonBlankLines(lines));
    ParseWordsErr(NonBlankLines(lines));
  }

  /** A blank last line, whatever white space it holds, contributes nothing. */
  lemma BlankLastLineIgnored(lines: seq<string>, blank: string)
    requires Blank(blank)
    ensures ParseLines(lines + [blank]) == ParseLines(lines)
    ensures NonBlankLines(lines + [blank]) == NonBlankLines(lines)
  {
    assert (lines + [blank])[..|lines|] == lines;
  }

  /** Both functions see one more line only through what they made of the lines before it. */
  lemma SnocCongruence(one: seq<string>, other: seq<string>, line: string)
    ensures ParseLines(one) == ParseLines(other) ==> ParseLines(one + [line]) == ParseLines(other + [line])
    ensures NonBlankLines(one) == NonBlankLines(other) ==> NonBlankLines(one + [line]) == NonBlankLines(other + [line])
  {
    assert (one + [line])[..|one|] == one;
    assert (other + [line])[..|other|] == other;
  }

  /** A blank line anywhere in the body, whatever white space it holds,
      changes neither the result nor the list of words. */
  lemma {:induction false} BlankLineIgnored(before: seq<string>, blank: string, after: seq<string>)
    requires Blank(blank)
    ensures ParseLines(before + [blank] + after) == ParseLines(before + after)
    ensures NonBlankLines(before + [blank] + after) == NonBlankLines(before + after)
  {
    if after == [] {
      assert before + [blank] + after == before + [blank];
      assert before + after == before;
      BlankLastLineIgnored(before, blank);
    } else {
      var init := after[..|after| - 1];
      var last := after[|after| - 1];
      assert before + [blank] + after == (before + [blank] + init) + [last];
      assert before + after == (before + init) + [last];
      BlankLineIgnored(before, blank, init);
      SnocCongruence(before + [blank] + init, before + init, last);
    }
  }

  /** A final "\n" only adds an empty last line, so it changes nothing. */
  lemma TrailingNewlineIgnored(body: string)
    ensures Fetch(Response(200, body + "\n")) == Fetch(Response(200, body))
  {
    SplitAppend(body, "", '\n');
    assert body + ['\n'] + "" == body + "\n";
    BlankLastLineIgnored(Split(body, '\n'), "");
  }

  /** The lines of a well-formed upstream body: one integer per line, each followed by "\n". */
  function FormatLines(numbers: seq<int>): (lines: seq<string>)
    ensures |lines| == |numbers|
  {
    if numbers == [] then [] else FormatLines(numbers[..|numbers| - 1]) + [Itoa(numbers[|numbers| - 1])]
  }

  /** A decimal numeral is a non-blank line of its own: no white space, no newline. */
  lemma ItoaIsWord(n: int)
    ensures '\n' !in Itoa(n)
    ensures TrimSpace(Itoa(n)) == Itoa(n)
  {
    var s := Itoa(n);
    assert forall k :: 0 <= k < |s| ==> !IsSpace(s[k]);
    TrimSpaceNoSpace(s);
  }

  lemma {:induction false} FormatLinesHaveNoNewline(numbers: seq<int>)
    ensures forall k :: 0 <= k < |numbers| ==> '\n' !in FormatLines(numbers)[k]
  {
    if numbers != [] {
      FormatLinesHaveNoNewline(numbers[..|numbers| - 1]);
      ItoaIsWord(numbers[|numbers| - 1]);
    }
  }

  predicate AllInt64(numbers: seq<int>) {
    forall k :: 0 <= k < |numbers| ==> MinInt <= numbers[k] <= MaxInt
  }

  /** One more line holding a 64-bit integer in decimal appends that integer. */
  lemma ParseLinesSnocItoa(lines: seq<string>, numbers: seq<int>, n: int)
    requires MinInt <= n <= MaxInt
    ensures ParseLines(lines) == Ok(numbers) ==> ParseLines(lines + [Itoa(n)]) == Ok(numbers + [n])
  {
    ItoaIsWord(n);
    AtoiItoa(n);
    var all := lines + [Itoa(n)];
    assert all[..|all| - 1] == lines && all[|all| - 1] == Itoa(n);
  }

  lemma {:induction false} ParseFormatLines(numbers: seq<int>)
    requires AllInt64(numbers)
    ensures ParseLines(FormatLines(numbers)) == Ok(numbers)
  {
    if numbers != [] {
      var init := numbers[..|numbers| - 1];
      var last := numbers[|numbers| - 1];
      assert numbers == init + [last];
      assert AllInt64(init);
      ParseFormatLines(init);
      ParseLinesSnocItoa(FormatLines(init), init, last);
    }
  }

  /** A 200 reply whose body lists 64-bit integers one per line, with the
      final newline, yields exactly those integers in order. */
  lemma FetchFormattedBody(numbers: seq<int>)
    requires AllInt64(numbers)
    ensures Fetch(Response(200, Join(FormatLines(numbers) + [""], '\n'))) == Ok(numbers)
  {
    var lines := FormatLines(numbers) + [""];
    ParseFormatLines(numbers);
    FormatLinesHaveNoNewline(numbers);
    assert forall k :: 0 <= k < |lines| ==> '\n' !in lines[k];
    SplitJoin(lines, '\n');
    BlankLastLineIgnored(FormatLines(numbers), "");
  }

  /** Only a 200 reply can succeed; its numbers are those the body parser returns. */
  lemma FetchOkIff(reply: Reply)
    ensures Fetch(reply).Ok? <==> reply.Response? && reply.status == 200 && ParseLines(Split(reply.body, '\n')).Ok?
    ensures Fetch(reply).Ok? ==> Fetch(reply).value == ParseLines(Split(reply.body, '\n')).value
  {
  }

  /** Which error a failed call gives: `Unavailable` exactly when the reply
      never arrived, `Rejected` with the body exactly when the status is not
      200, and otherwise `Malformed` with the first non-blank trimmed line of
      the body that `Atoi` rejects. */
  lemma FetchErrors(reply: Reply)
    ensures Fetch(reply) == Err(Unavailable) <==> reply.Unreachable?
    ensures Fetch(reply).Err? && Fetch(reply).error.Rejected? <==> reply.Response? && reply.status != 200
    ensures Fetch(reply).Err? && Fetch(reply).error.Rejected? ==> Fetch(reply).error.body == reply.body
    ensures Fetch(reply).Err? && Fetch(reply).error.Malformed? ==>
      reply.Response? && reply.status == 200
      && var words := NonBlankLines(Split(reply.body, '\n'));
        exists k :: FirstRejected(words, k) && words[k] == Fetch(reply).error.line
  {
    if reply.Response? && reply.status == 200 {
      ParseLinesMeaning(Split(reply.body, '\n'));
    }
  }
}
