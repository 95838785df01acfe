/** The lexer and its tokens: a cursor over a borrowed source buffer, the consuming
    match_* operations, and the end-of-stream contract of next_token / is_finished. */
module Lexel {
  import Matching

  /** LXL_TOKENS_END: the token type that marks an exhausted token stream. */
  const TOKENS_END: int := -1

  /** A token: the span [start, end) of the source it covers, and its type.
      Negative types are reserved for the lexer itself. */
  datatype Token = Token(start: nat, end: nat, tokenType: int)

  /** Whether the lexer has handed out its end-of-stream token. */
  datatype Status = Ready | Finished

  /** What the tokenizer dispatch decides at a position: where the next token starts,
      once whitespace and comments are skipped, where it ends, and its type. */
  datatype Scan = Scan(tokenStart: nat, tokenEnd: nat, tokenType: int)

  /** A scan from pos is well-formed: it lies between pos and the end of the source, a token
      that starts before the end covers at least one character, and the dispatch never
      produces the end-of-stream type itself. */
  predicate ScanFits(source: seq<char>, pos: nat, sc: Scan)
  {
    pos <= sc.tokenStart <= sc.tokenEnd <= |source| &&
    (sc.tokenStart < |source| ==> sc.tokenStart < sc.tokenEnd) &&
    sc.tokenType != TOKENS_END
  }

  /** The dispatch gives a well-formed scan from every position of the source. */
  predicate DispatchFits(dispatch: (seq<char>, nat) -> Scan, source: seq<char>)
  {
    forall pos: nat :: pos <= |source| ==> ScanFits(source, pos, dispatch(source, pos))
  }

  class Lexer {
    /** The source buffer, from the lexer's start to its end. */
    const source: seq<char>
    /** The cursor: the offset of the current character. */
    var current: nat
    var status: Status

    /** The cursor stays within [start, end], and a finished lexer has consumed everything. */
    ghost predicate Valid()
      reads this
    {
      current <= |source| &&
      (status == Finished ==> current == |source|)
    }

    /** The input from the cursor to the end of the source. */
    function Rest(): (r: seq<char>)
      reads this
      requires Valid()
      ensures |r| == |source| - current
    {
      source[current..]
    }

    /** A termination measure for the token stream: the input left, plus one until the end token. */
    ghost function Pending(): nat
      reads this
      requires Valid()
    {
      |source| - current + (if status == Ready then 1 else 0)
    }

    /** A lexer over the whole of source, positioned at its start. */
    constructor (source: seq<char>)
      ensures Valid()
      ensures this.source == source && current == 0 && status == Ready
      ensures Rest() == source
    {
      this.source := source;
      current := 0;
      status := Ready;
    }

    /** lxl_lexer_is_finished: the token stream is exhausted. */
    function IsFinished(): (r: bool)
      reads this
      requires Valid()
      ensures r ==> Rest() == []
    {
      status == Finished
    }

    /** lxl_lexer__match_chars: check_chars, consuming the current character when it matches. */
    method MatchChars(chars: seq<char>) returns (r: bool)
      requires Valid()
      modifies this`current
      ensures Valid()
      ensures r == Matching.CheckChars(old(Rest()), chars)
      ensures current == old(current) + (if r then 1 else 0)
      ensures Rest() == if r then old(Rest())[1..] else old(Rest())
    {
      r := Matching.CheckChars(Rest(), chars);
      if r {
        current := current + 1;
      }
    }

    /** lxl_lexer__match_string: check_string, consuming all of s when it matches. */
    method MatchString(s: seq<char>) returns (r: bool)
      requires Valid()
      modifies this`current
      ensures Valid()
      ensures r == Matching.CheckString(old(Rest()), s)
      ensures current == old(current) + (if r then |s| else 0)
      ensures Rest() == if r then old(Rest())[|s|..] else old(Rest())
    {
      r := Matching.CheckString(Rest(), s);
      if r {
        current := current + |s|;
      }
    }

    /** lxl_lexer__match_string_n: check_string_n, consuming the compared characters when it
        matches: n of them, or all that remain when fewer than n are left. */
    method MatchStringN(s: seq<char>, n: nat) returns (r: bool)
      requires Valid()
      requires n <= |s|
      modifies this`current
      ensures Valid()
      ensures r == Matching.CheckStringN(old(Rest()), s, n)
      ensures n <= |old(Rest())| ==> current == old(current) + (if r then n else 0)
      ensures current == old(current) + (if r then Matching.ClampedLength(old(Rest()), n) else 0)
    {
      r := Matching.CheckStringN(Rest(), s, n);
      if r {
        current := current + Matching.ClampedLength(Rest(), n);
      }
    }

    /** lxl_lexer_next_token. Once the lexer is finished, every call returns the end-of-stream
        token again and changes nothing; otherwise the dispatch skips insignificant input and
        either reaches the end, which finishes the lexer and yields the end-of-stream token,
        or yields the next token and moves the cursor past it. */
    method NextToken(dispatch: (seq<char>, nat) -> Scan) returns (t: Token)
      requires Valid()
      requires DispatchFits(dispatch, source)
      modifies this
      ensures Valid()
      ensures old(status) == Finished ==>
        status == Finished && current == old(current) && t == Token(current, current, TOKENS_END)
      ensures t.tokenType == TOKENS_END <==> status == Finished
      ensures old(current) <= t.start <= t.end == current
      ensures old(status) == Ready ==>
        var sc := dispatch(source, old(current));
        if sc.tokenStart == |source| then t == Token(|source|, |source|, TOKENS_END)
        else t == Token(sc.tokenStart, sc.tokenEnd, sc.tokenType)
      ensures old(status) == Ready ==> Pending() < old(Pending())
    {
      if status == Finished {
        return Token(current, current, TOKENS_END);
      }
      var sc := dispatch(source, current);
      assert ScanFits(source, current, sc);
      if sc.tokenStart == |source| {
        current := |source|;
        status := Finished;
        t := Token(current, current, TOKENS_END);
      } else {
        current := sc.tokenEnd;
        t := Token(sc.tokenStart, sc.tokenEnd, sc.tokenType);
      }
    }
  }

  /** Draining the token stream: calling next_token until is_finished holds ends, the
      last token handed out is the end-of-stream token, and the tokens follow one another
      through the source in order. */
  method Drain(lexer: Lexer, dispatch: (seq<char>, nat) -> Scan) returns (tokens: seq<Token>)
    requires lexer.Valid()
    requires DispatchFits(dispatch, lexer.source)
    modifies lexer
    ensures lexer.Valid() && lexer.IsFinished()
    ensures forall i :: 0 <= i < |tokens| - 1 ==> tokens[i].tokenType != TOKENS_END
    ensures old(lexer.status) == Ready ==> |tokens| > 0 && tokens[|tokens| - 1].tokenType == TOKENS_END
    ensures old(lexer.status) == Finished ==> tokens == []
    ensures tokens != [] ==> old(lexer.current) <= tokens[0].start
    ensures forall i :: 0 <= i < |tokens| ==> tokens[i].start <= tokens[i].end <= |lexer.source|
    ensures forall i :: 0 <= i < |tokens| - 1 ==> tokens[i].end <= tokens[i + 1].start
  {
    tokens := [];
    while !lexer.IsFinished()
      invariant lexer.Valid()
      invariant forall i :: 0 <= i < |tokens| ==>
        (tokens[i].tokenType == TOKENS_END <==> i == |tokens| - 1 && lexer.status == Finished)
      invariant old(lexer.status) == Ready && lexer.status == Finished ==> |tokens| > 0
      invariant old(lexer.status) == Finished ==> tokens == []
      invariant old(lexer.current) <= lexer.current
      invariant tokens != [] ==> old(lexer.current) <= tokens[0].start
      invariant tokens != [] ==> tokens[|tokens| - 1].end == lexer.current
      invariant forall i :: 0 <= i < |tokens| ==> tokens[i].start <= tokens[i].end <= lexer.current
      invariant forall i :: 0 <= i < |tokens| - 1 ==> tokens[i].end <= tokens[i + 1].start
      decreases lexer.Pending()
    {
      var t := lexer.NextToken(dispatch);
      tokens := tokens + [t];
    }
  }
}
