/**
 The one-line diagnostic with which a failing storage check names its error chain, and
 the verifier's own, independently written reading of that line out of captured output.
 */
module StorageDiagnostic {
  import opened Outcomes
  import opened Text

  const MAX_ERROR_CAUSES: nat := 8
  const MAX_CHARS: nat := 512
  const PREFIX: string := "AWESOME_STORAGE_CONTRACT_DIAGNOSTIC_V1:"
  const OS_ERROR: string := "os_error_"
  const FIXED_TOKENS: set<string> := {"contract_error", "cycle", "sqlite_error", "truncated", "unexpected_error"}

  /** A text without the separator and without line breaks. */
  predicate IsTokenText(s: string) {
    forall i :: 0 <= i < |s| ==> s[i] != '>' && s[i] != '\n' && s[i] != '\r'
  }

  predicate IsShortToken(token: string) {
    IsTokenText(token) && 1 <= |token| <= 100
  }

  predicate AreShortTokens(tokens: seq<string>) {
    forall i :: 0 <= i < |tokens| ==> IsShortToken(tokens[i])
  }

  /**
   The fixed tables that producer and verifier share: the token of each known contract
   message and of each error class that has one.
   */
  datatype Registry = Registry(contractTokens: map<string, string>, classTokens: map<string, string>) {
    ghost predicate Valid() {
      && (forall m :: m in contractTokens ==> IsShortToken(contractTokens[m]) && !(OS_ERROR <= contractTokens[m]))
      && (forall name :: name in classTokens ==> IsShortToken(classTokens[name]) && !(OS_ERROR <= classTokens[name]))
    }
  }

  /** An OSError's number: none, or not an integer; an integer; or a Boolean, which counts as an integer. */
  datatype Errno = NoNumber | Number(value: int) | Boolean(truth: bool)

  datatype Kind =
    | Contract(message: string)
    | Sqlite
    | Os(errno: Errno)
    | Other(className: string)

  /** One exception; `cause` and `context` name other exceptions by their identity. */
  datatype Error = Error(kind: Kind, cause: Option<nat>, context: Option<nat>, suppressContext: bool)
  {
    function Next(): Option<nat> {
      if cause.None? && !suppressContext then context else cause
    }
  }

  predicate ValidHeap(errors: seq<Error>) {
    forall i :: 0 <= i < |errors| ==> errors[i].Next().Some? ==> errors[i].Next().value < |errors|
  }

  predicate InHeap(errors: seq<Error>, current: Option<nat>) {
    current.Some? ==> current.value < |errors|
  }

  function TokenOf(kind: Kind, registry: Registry): string {
    match kind
    case Contract(message) =>
      if message in registry.contractTokens then registry.contractTokens[message] else "contract_error"
    case Sqlite => "sqlite_error"
    case Os(NoNumber) => "unexpected_error"
    case Os(Number(errno)) => if 0 <= errno <= 99_999 then OS_ERROR + Decimal(errno) else "unexpected_error"
    case Os(Boolean(truth)) => OS_ERROR + (if truth then "True" else "False")
    case Other(className) =>
      if className in registry.classTokens then registry.classTokens[className] else "unexpected_error"
  }

  /** The tokens from one exception on, when `room` more may be named. */
  function Walk(errors: seq<Error>, current: Option<nat>, seen: set<nat>, room: nat, registry: Registry): seq<string>
    requires ValidHeap(errors) && InHeap(errors, current)
    decreases room
  {
    if current.None? then []
    else if room == 0 then ["truncated"]
    else if current.value in seen then if room == 1 then ["cycle", "truncated"] else ["cycle"]
    else
      var error := errors[current.value];
      [TokenOf(error.kind, registry)] + Walk(errors, error.Next(), seen + {current.value}, room - 1, registry)
  }

  function Join(tokens: seq<string>): string {
    if tokens == [] then []
    else if |tokens| == 1 then tokens[0]
    else tokens[0] + ">" + Join(tokens[1..])
  }

  predicate Fits(tokens: seq<string>) {
    |PREFIX| + |Join(tokens)| <= MAX_CHARS
  }

  /** Without the token before the last. */
  function WithoutSecondLast(tokens: seq<string>): (shorter: seq<string>)
    requires |tokens| >= 2
    ensures |shorter| == |tokens| - 1
  {
    tokens[..|tokens| - 2] + [tokens[|tokens| - 1]]
  }

  function Shortened(tokens: seq<string>): seq<string>
    decreases |tokens|
  {
    if |tokens| <= 2 || Fits(tokens) then tokens else Shortened(WithoutSecondLast(tokens))
  }

  function Bounded(tokens: seq<string>): seq<string>
    requires tokens != []
  {
    if Fits(tokens) then tokens
    else Shortened(if tokens[|tokens| - 1] == "truncated" then tokens else tokens + ["truncated"])
  }

  lemma WalkIsNonempty(errors: seq<Error>, start: nat, registry: Registry)
    requires ValidHeap(errors) && start < |errors|
    ensures Walk(errors, Some(start), {}, MAX_ERROR_CAUSES, registry) != []
  {
  }

  function ErrorChain(errors: seq<Error>, start: nat, registry: Registry): string
    requires ValidHeap(errors) && start < |errors|
  {
    WalkIsNonempty(errors, start, registry);
    Join(Bounded(Walk(errors, Some(start), {}, MAX_ERROR_CAUSES, registry)))
  }

  /** `all` is what was named and what is still to be. */
  ghost predicate Splits(all: seq<string>, named: seq<string>, rest: seq<string>) {
    all == named + rest
  }

  lemma SplitsNext(all: seq<string>, named: seq<string>, rest: seq<string>)
    requires Splits(all, named, rest) && rest != []
    ensures Splits(all, named + [rest[0]], rest[1..])
  {
    assert rest == [rest[0]] + rest[1..];
  }

  lemma SplitsAtCycle(all: seq<string>, named: seq<string>, truncated: bool)
    requires Splits(all, named, if truncated then ["cycle", "truncated"] else ["cycle"])
    ensures Splits(all, named + ["cycle"], if truncated then ["truncated"] else [])
  {
    assert ["cycle", "truncated"] == ["cycle"] + ["truncated"];
  }

  lemma WalkStops(errors: seq<Error>, current: Option<nat>, seen: set<nat>, room: nat, registry: Registry)
    requires ValidHeap(errors) && InHeap(errors, current)
    ensures current.None? ==> Walk(errors, current, seen, room, registry) == []
    ensures current.Some? && room == 0 ==> Walk(errors, current, seen, room, registry) == ["truncated"]
    ensures current.Some? && room > 0 && current.value in seen ==>
              Walk(errors, current, seen, room, registry) == if room == 1 then ["cycle", "truncated"] else ["cycle"]
  {
  }

  /** Follow the chain, stopping at a repeated exception or after eight. */
  method FollowChain(errors: seq<Error>, start: nat, registry: Registry)
    returns (tokens: seq<string>, current: Option<nat>)
    requires ValidHeap(errors) && start < |errors|
    ensures Splits(
      Walk(errors, Some(start), {}, MAX_ERROR_CAUSES, registry), tokens,
      if current.Some? && |tokens| >= MAX_ERROR_CAUSES then ["truncated"] else [])
  {
    ghost var all := Walk(errors, Some(start), {}, MAX_ERROR_CAUSES, registry);
    ghost var rest := all;
    assert Splits(all, [], rest);
    hide Walk, TokenOf, ValidHeap, Splits;
    var seen: set<nat> := {};
    tokens, current := [], Some(start);
    while current.Some? && |tokens| < MAX_ERROR_CAUSES
      invariant InHeap(errors, current) && |tokens| <= MAX_ERROR_CAUSES
      invariant Splits(all, tokens, rest) && rest == Walk(errors, current, seen, MAX_ERROR_CAUSES - |tokens|, registry)
      decreases MAX_ERROR_CAUSES - |tokens|
    {
      if current.value in seen {
        WalkStops(errors, current, seen, MAX_ERROR_CAUSES - |tokens|, registry);
        SplitsAtCycle(all, tokens, |tokens| == MAX_ERROR_CAUSES - 1);
        tokens := tokens + ["cycle"];
        return;
      }
      WalkOne(errors, current.value, seen, MAX_ERROR_CAUSES - |tokens|, registry);
      seen := seen + {current.value};
      var token := TokenOf(errors[current.value].kind, registry);
      SplitsNext(all, tokens, rest);
      tokens, rest := tokens + [token], rest[1..];
      current := errors[current.value].Next();
    }
    WalkStops(errors, current, seen, MAX_ERROR_CAUSES - |tokens|, registry);
  }

  /** The tokens of a chain, with a note when exceptions past the eighth are left out. */
  method NameCauses(errors: seq<Error>, start: nat, registry: Registry) returns (tokens: seq<string>)
    requires ValidHeap(errors) && start < |errors|
    ensures tokens == Walk(errors, Some(start), {}, MAX_ERROR_CAUSES, registry)
  {
    hide Walk;
    var current;
    tokens, current := FollowChain(errors, start, registry);
    if current.Some? && |tokens| >= MAX_ERROR_CAUSES {
      tokens := tokens + ["truncated"];
    }
  }

  /** Name the chain, then drop causes from the end until the line fits. */
  method SafeErrorChain(errors: seq<Error>, start: nat, registry: Registry) returns (text: string)
    requires ValidHeap(errors) && start < |errors|
    ensures text == ErrorChain(errors, start, registry)
  {
    var tokens := NameCauses(errors, start, registry);
    WalkIsNonempty(errors, start, registry);
    ghost var all := tokens;
    if !Fits(tokens) {
      if tokens[|tokens| - 1] != "truncated" {
        tokens := tokens + ["truncated"];
      }
      while |tokens| > 2 && !Fits(tokens)
        invariant tokens != [] && Bounded(all) == Shortened(tokens)
        decreases |tokens|
      {
        tokens := WithoutSecondLast(tokens);
      }
    }
    text := Join(tokens);
  }

  // ---- The verifier ----

  predicate ValidToken(token: string, registry: Registry) {
    || token in FIXED_TOKENS
    || token in registry.contractTokens.Values
    || token in registry.classTokens.Values
    || (OS_ERROR <= token && 1 <= |token| - |OS_ERROR| <= 5 && AllDigits(token[|OS_ERROR|..]))
  }

  predicate AllValid(tokens: seq<string>, registry: Registry) {
    forall i :: 0 <= i < |tokens| ==> ValidToken(tokens[i], registry)
  }

  /** Python's split on one character. */
  function Split(s: string): (parts: seq<string>)
    ensures parts != []
  {
    if s == [] then [[]]
    else
      var rest := Split(s[1..]);
      if s[0] == '>' then [[]] + rest else [[s[0]] + rest[0]] + rest[1..]
  }

  function WithoutLineEnds(output: string): (s: string)
    ensures s <= output
  {
    if output == [] || (output[|output| - 1] != '\r' && output[|output| - 1] != '\n') then output
    else WithoutLineEnds(output[..|output| - 1])
  }

  function LastLine(s: string): (line: string)
    ensures |line| <= |s|
  {
    if s == [] || s[|s| - 1] == '\n' then [] else LastLine(s[..|s| - 1]) + [s[|s| - 1]]
  }

  function Detail(output: string, registry: Registry): Option<string> {
    CheckedLine(LastLine(WithoutLineEnds(output)), registry)
  }

  function CheckedLine(line: string, registry: Registry): Option<string> {
    if line == [] || |line| > MAX_CHARS || !(PREFIX <= line) then None
    else
      var tokens := Split(line[|PREFIX|..]);
      if 1 <= |tokens| <= MAX_ERROR_CAUSES + 1 && AllValid(tokens, registry) then Some(line) else None
  }

  lemma {:induction false} LastLineIsTail(s: string)
    ensures LastLine(s) == s[|s| - |LastLine(s)|..]
    ensures '\n' !in LastLine(s)
    ensures |LastLine(s)| < |s| ==> s[|s| - |LastLine(s)| - 1] == '\n'
  {
    if s != [] && s[|s| - 1] != '\n' {
      LastLineIsTail(s[..|s| - 1]);
    }
  }

  /** Scan back over the line ends. */
  method EndOfText(output: string) returns (end: nat)
    ensures end == |WithoutLineEnds(output)|
  {
    end := |output|;
    assert output[..end] == output;
    while end > 0 && (output[end - 1] == '\r' || output[end - 1] == '\n')
      invariant 0 <= end <= |output|
      invariant WithoutLineEnds(output[..end]) == WithoutLineEnds(output)
    {
      assert output[..end][..end - 1] == output[..end - 1];
      end := end - 1;
    }
  }

  lemma LastLineStep(text: string, start: nat)
    requires 0 < start <= |text| && text[start - 1] != '\n'
    ensures LastLine(text[..start]) + text[start..] == LastLine(text[..start - 1]) + text[start - 1..]
  {
    assert text[..start][..start - 1] == text[..start - 1];
    assert text[start - 1..] == [text[start - 1]] + text[start..];
  }

  /** Scan back to the start of the last line. */
  method LastLineStart(text: string) returns (start: nat)
    ensures start <= |text| && LastLine(text) == text[start..]
  {
    start := |text|;
    assert text[..start] == text && text[start..] == [];
    while start > 0 && text[start - 1] != '\n'
      invariant 0 <= start <= |text|
      invariant LastLine(text) == LastLine(text[..start]) + text[start..]
    {
      LastLineStep(text, start);
      start := start - 1;
    }
  }

  method StorageContractFailureDetail(output: string, registry: Registry) returns (detail: Option<string>)
    ensures detail == Detail(output, registry)
  {
    var end := EndOfText(output);
    assert WithoutLineEnds(output) == output[..end];
    if end == 0 {
      return None;
    }
    var start := LastLineStart(output[..end]);
    var line := output[..end][start..];
    if line == [] || |line| > MAX_CHARS || !(PREFIX <= line) {
      return None;
    }
    var tokens := Split(line[|PREFIX|..]);
    if !(1 <= |tokens| <= MAX_ERROR_CAUSES + 1) || !AllValid(tokens, registry) {
      return None;
    }
    return Some(line);
  }

  // ---- What is produced is accepted ----

  predicate HasBooleanErrno(kind: Kind) {
    kind.Os? && kind.errno.Boolean?
  }

  lemma NumberToken(errno: nat, registry: Registry)
    requires errno <= 99_999
    ensures var token := OS_ERROR + Decimal(errno); IsShortToken(token) && ValidToken(token, registry)
  {
    DecimalLength(errno, 5);
    var digits := Decimal(errno);
    assert (OS_ERROR + digits)[|OS_ERROR|..] == digits;
    assert forall i :: 0 <= i < |digits| ==> digits[i] in digits;
  }

  lemma BooleanToken(truth: bool, registry: Registry)
    requires registry.Valid()
    ensures var token := TokenOf(Os(Boolean(truth)), registry); IsShortToken(token) && !ValidToken(token, registry)
  {
    var token := TokenOf(Os(Boolean(truth)), registry);
    assert OS_ERROR <= token && token[0] == 'o';
    assert forall fixed :: fixed in FIXED_TOKENS ==> fixed[0] != 'o';
    assert token[|OS_ERROR|] in token[|OS_ERROR|..] && !IsDigit(token[|OS_ERROR|]);
  }

  /** Every token is short; the verifier knows it unless it spells a Boolean. */
  lemma TokenIsShort(kind: Kind, registry: Registry)
    requires registry.Valid()
    ensures IsShortToken(TokenOf(kind, registry))
    ensures ValidToken(TokenOf(kind, registry), registry) <==> !HasBooleanErrno(kind)
  {
    if kind.Os? && kind.errno.Boolean? {
      BooleanToken(kind.errno.truth, registry);
    } else if kind.Os? && kind.errno.Number? && 0 <= kind.errno.value <= 99_999 {
      NumberToken(kind.errno.value, registry);
    }
  }

  lemma {:induction false} WalkIsShort(
    errors: seq<Error>, current: Option<nat>, seen: set<nat>, room: nat, registry: Registry)
    requires registry.Valid() && ValidHeap(errors) && InHeap(errors, current)
    ensures
      var tokens := Walk(errors, current, seen, room, registry);
      && AreShortTokens(tokens) && |tokens| <= room + 1
      && (|tokens| == room + 1 ==> tokens[room] == "truncated")
    decreases room
  {
    if current.Some? && room > 0 && current.value !in seen {
      TokenIsShort(errors[current.value].kind, registry);
      WalkIsShort(errors, errors[current.value].Next(), seen + {current.value}, room - 1, registry);
    }
  }

  lemma {:induction false} JoinIsText(tokens: seq<string>)
    requires AreShortTokens(tokens)
    ensures forall i :: 0 <= i < |Join(tokens)| ==> Join(tokens)[i] != '\n' && Join(tokens)[i] != '\r'
    ensures |Join(tokens)| <= 101 * |tokens|
  {
    if |tokens| > 1 {
      assert forall i :: 0 <= i < |tokens[1..]| ==> tokens[1..][i] == tokens[i + 1];
      JoinIsText(tokens[1..]);
    }
  }

  /** Shortening ends with a line that fits, made of the same good tokens. */
  lemma {:induction false} ShortenedFits(tokens: seq<string>)
    requires tokens != [] && AreShortTokens(tokens)
    ensures Fits(Shortened(tokens)) && AreShortTokens(Shortened(tokens))
    ensures 1 <= |Shortened(tokens)| <= |tokens|
    decreases |tokens|
  {
    if |tokens| <= 2 {
      JoinIsText(tokens);
    } else if !Fits(tokens) {
      ShortenedFits(WithoutSecondLast(tokens));
    }
  }

  /**
   Shortening only drops causes from behind: what stays is a front of the tokens, never
   empty, and the final marker; and it never drops one cause more than the bound demands.
   */
  lemma {:induction false} ShortenedKeepsFront(tokens: seq<string>) returns (k: nat)
    requires |tokens| >= 2
    ensures 1 <= k < |tokens| && Shortened(tokens) == tokens[..k] + [tokens[|tokens| - 1]]
    ensures k + 1 < |tokens| ==> !Fits(tokens[..k + 1] + [tokens[|tokens| - 1]])
    decreases |tokens|
  {
    if |tokens| <= 2 || Fits(tokens) {
      k := |tokens| - 1;
    } else {
      var shorter := WithoutSecondLast(tokens);
      k := ShortenedKeepsFront(shorter);
      assert shorter[..k] == tokens[..k];
      if k + 1 < |shorter| {
        assert shorter[..k + 1] == tokens[..k + 1];
      } else {
        assert tokens == tokens[..k + 1] + [tokens[|tokens| - 1]];
      }
    }
  }

  predicate IsPath(errors: seq<Error>, path: seq<nat>) {
    && (forall i :: 0 <= i < |path| ==> path[i] < |errors|)
    && (forall i :: 0 <= i < |path| - 1 ==> errors[path[i]].Next() == Some(path[i + 1]))
    && (forall i, j :: 0 <= i < j < |path| ==> path[i] != path[j])
  }

  function Visited(path: seq<nat>): set<nat> {
    set i | 0 <= i < |path| :: path[i]
  }

  lemma VisitOneMore(path: seq<nat>, last: nat)
    ensures Visited(path + [last]) == Visited(path) + {last}
  {
    var all := path + [last];
    assert forall i :: 0 <= i < |path| ==> all[i] == path[i];
    assert all[|path|] == last;
  }

  /** The tokens name the path in order, and then go on as `tail`. */
  predicate NamesPath(
    tokens: seq<string>, errors: seq<Error>, path: seq<nat>, tail: seq<string>, registry: Registry)
    requires forall i :: 0 <= i < |path| ==> path[i] < |errors|
  {
    && |tokens| == |path| + |tail|
    && (forall i :: 0 <= i < |path| ==> tokens[i] == TokenOf(errors[path[i]].kind, registry))
    && tokens[|path|..] == tail
  }

  lemma NamesOneMore(
    tokens: seq<string>, errors: seq<Error>, path: seq<nat>, last: nat, tail: seq<string>, registry: Registry)
    requires last < |errors| && (forall i :: 0 <= i < |path| ==> path[i] < |errors|)
    requires tail != [] && tail[0] == TokenOf(errors[last].kind, registry)
    requires NamesPath(tokens, errors, path, tail, registry)
    ensures NamesPath(tokens, errors, path + [last], tail[1..], registry)
  {
    assert tokens[|path|] == tail[0];
    assert tokens[|path| + 1..] == tail[1..];
  }

  lemma WalkOne(errors: seq<Error>, current: nat, seen: set<nat>, room: nat, registry: Registry)
    requires ValidHeap(errors) && current < |errors| && room > 0 && current !in seen
    ensures
      var tokens := Walk(errors, Some(current), seen, room, registry);
      && tokens != [] && tokens[0] == TokenOf(errors[current].kind, registry)
      && InHeap(errors, errors[current].Next())
      && tokens[1..] == Walk(errors, errors[current].Next(), seen + {current}, room - 1, registry)
  {
  }

  /** What is left to walk after a path. */
  function AfterPath(errors: seq<Error>, path: seq<nat>, room: nat, registry: Registry): seq<string>
    requires ValidHeap(errors) && IsPath(errors, path) && 0 < |path| <= room
  {
    Walk(errors, errors[path[|path| - 1]].Next(), Visited(path), room - |path|, registry)
  }

  lemma PathFront(errors: seq<Error>, path: seq<nat>)
    requires IsPath(errors, path) && |path| >= 2
    ensures IsPath(errors, path[..|path| - 1])
    ensures errors[path[|path| - 2]].Next() == Some(path[|path| - 1])
    ensures path[|path| - 1] !in Visited(path[..|path| - 1])
    ensures Visited(path[..|path| - 1]) + {path[|path| - 1]} == Visited(path)
  {
    assert errors[path[|path| - 2]].Next() == Some(path[|path| - 2 + 1]);
    assert path == path[..|path| - 1] + [path[|path| - 1]];
    VisitOneMore(path[..|path| - 1], path[|path| - 1]);
  }

  lemma AfterOneMore(errors: seq<Error>, path: seq<nat>, room: nat, registry: Registry)
    requires ValidHeap(errors) && IsPath(errors, path) && 2 <= |path| <= room
    ensures IsPath(errors, path[..|path| - 1])
    ensures
      var before := AfterPath(errors, path[..|path| - 1], room, registry);
      && before != [] && before[0] == TokenOf(errors[path[|path| - 1]].kind, registry)
      && before[1..] == AfterPath(errors, path, room, registry)
  {
    PathFront(errors, path);
    hide Walk, TokenOf, Visited, IsPath, ValidHeap;
    WalkOne(errors, path[|path| - 1], Visited(path[..|path| - 1]), room - |path| + 1, registry);
  }

  lemma WalkFirst(errors: seq<Error>, start: nat, room: nat, registry: Registry)
    requires ValidHeap(errors) && start < |errors| && room > 0
    ensures IsPath(errors, [start])
    ensures NamesPath(
      Walk(errors, Some(start), {}, room, registry), errors, [start],
      AfterPath(errors, [start], room, registry), registry)
  {
    hide Walk, TokenOf, ValidHeap;
    WalkOne(errors, start, {}, room, registry);
    assert Visited([start]) == {} + {start} by {
      VisitOneMore([], start);
      assert Visited([]) == {} && [] + [start] == [start];
    }
  }

  lemma {:induction false} WalkAlong(errors: seq<Error>, path: seq<nat>, room: nat, registry: Registry)
    requires ValidHeap(errors) && IsPath(errors, path) && 0 < |path| <= room
    ensures NamesPath(
      Walk(errors, Some(path[0]), {}, room, registry), errors, path, AfterPath(errors, path, room, registry), registry)
    decreases |path|
  {
    if |path| == 1 {
      assert path == [path[0]];
      WalkFirst(errors, path[0], room, registry);
    } else {
      var tokens := Walk(errors, Some(path[0]), {}, room, registry);
      var front, last := path[..|path| - 1], path[|path| - 1];
      assert path == front + [last] && last < |errors| && forall i :: 0 <= i < |front| ==> front[i] < |errors|;
      hide Walk, TokenOf, AfterPath, NamesPath, IsPath, ValidHeap;
      AfterOneMore(errors, path, room, registry);
      WalkAlong(errors, front, room, registry);
      NamesOneMore(tokens, errors, front, last, AfterPath(errors, front, room, registry), registry);
    }
  }

  /** A path that ends with the chain, comes back to one of its exceptions, or is as long as one may be. */
  predicate IsWhole(errors: seq<Error>, path: seq<nat>)
    requires IsPath(errors, path) && path != []
  {
    var next := errors[path[|path| - 1]].Next();
    next.None? || next.value in path || |path| == MAX_ERROR_CAUSES
  }

  /** The marker tokens at the end of a whole path. */
  function Ending(errors: seq<Error>, path: seq<nat>): seq<string>
    requires IsPath(errors, path) && path != [] && IsWhole(errors, path)
  {
    if errors[path[|path| - 1]].Next().None? then []
    else if |path| == MAX_ERROR_CAUSES then ["truncated"]
    else if |path| == MAX_ERROR_CAUSES - 1 then ["cycle", "truncated"]
    else ["cycle"]
  }

  lemma {:induction false} EveryPathExtends(errors: seq<Error>, front: seq<nat>) returns (path: seq<nat>)
    requires ValidHeap(errors) && IsPath(errors, front) && 0 < |front| <= MAX_ERROR_CAUSES
    ensures IsPath(errors, path) && |front| <= |path| <= MAX_ERROR_CAUSES && front <= path && IsWhole(errors, path)
    decreases MAX_ERROR_CAUSES - |front|
  {
    if IsWhole(errors, front) {
      path := front;
    } else {
      var next := errors[front[|front| - 1]].Next().value;
      path := EveryPathExtends(errors, front + [next]);
    }
  }

  /**
   Every chain is named exactly. From any exception there is a whole path of at most
   eight different ones; they are named in order, and the end is silent when the chain
   ends there, and otherwise says whether it came back to a named exception and whether
   anything past the eighth was left out.
   */
  lemma ChainIsNamed(errors: seq<Error>, start: nat, registry: Registry) returns (path: seq<nat>)
    requires ValidHeap(errors) && start < |errors|
    ensures IsPath(errors, path) && 0 < |path| <= MAX_ERROR_CAUSES && path[0] == start && IsWhole(errors, path)
    ensures NamesPath(
      Walk(errors, Some(start), {}, MAX_ERROR_CAUSES, registry), errors, path, Ending(errors, path), registry)
  {
    path := EveryPathExtends(errors, [start]);
    WalkAlong(errors, path, MAX_ERROR_CAUSES, registry);
    WholePathEnds(errors, path, registry);
  }

  lemma WholePathEnds(errors: seq<Error>, path: seq<nat>, registry: Registry)
    requires ValidHeap(errors) && IsPath(errors, path) && 0 < |path| <= MAX_ERROR_CAUSES && IsWhole(errors, path)
    ensures AfterPath(errors, path, MAX_ERROR_CAUSES, registry) == Ending(errors, path)
  {
    var next := errors[path[|path| - 1]].Next();
    assert next.Some? && next.value in path ==> next.value in Visited(path);
  }

  lemma {:induction false} SplitText(s: string)
    requires IsTokenText(s)
    ensures Split(s) == [s]
  {
    if s != [] {
      assert forall i :: 0 <= i < |s[1..]| ==> s[1..][i] == s[i + 1];
      SplitText(s[1..]);
      assert [s[0]] + s[1..] == s;
    }
  }

  lemma {:induction false} SplitFirst(s: string, rest: string)
    requires IsTokenText(s)
    ensures Split(s + ">" + rest) == [s] + Split(rest)
  {
    if s == [] {
      assert (s + ">" + rest)[1..] == rest;
    } else {
      assert forall i :: 0 <= i < |s[1..]| ==> s[1..][i] == s[i + 1];
      SplitFirst(s[1..], rest);
      assert (s + ">" + rest)[1..] == s[1..] + ">" + rest;
      assert ([s[1..]] + Split(rest))[1..] == Split(rest);
      assert [s[0]] + s[1..] == s;
    }
  }

  /** Splitting a joined line gives back its tokens. */
  lemma {:induction false} SplitUndoesJoin(tokens: seq<string>)
    requires tokens != [] && AreShortTokens(tokens)
    ensures Split(Join(tokens)) == tokens
  {
    assert IsShortToken(tokens[0]);
    if |tokens| == 1 {
      SplitText(tokens[0]);
    } else {
      assert forall i :: 0 <= i < |tokens[1..]| ==> tokens[1..][i] == tokens[i + 1];
      SplitUndoesJoin(tokens[1..]);
      SplitFirst(tokens[0], Join(tokens[1..]));
      assert [tokens[0]] + tokens[1..] == tokens;
    }
  }

  lemma BoundedIsShort(errors: seq<Error>, start: nat, registry: Registry)
    requires registry.Valid() && ValidHeap(errors) && start < |errors|
    ensures
      var all := Walk(errors, Some(start), {}, MAX_ERROR_CAUSES, registry);
      && all != [] && AreShortTokens(Bounded(all)) && Fits(Bounded(all))
      && 1 <= |Bounded(all)| <= MAX_ERROR_CAUSES + 1
  {
    var all := Walk(errors, Some(start), {}, MAX_ERROR_CAUSES, registry);
    WalkIsNonempty(errors, start, registry);
    WalkIsShort(errors, Some(start), {}, MAX_ERROR_CAUSES, registry);
    hide Walk, Shortened, Fits, AreShortTokens;
    if !Fits(all) {
      MarkedIsShort(all);
      ShortenedFits(if all[|all| - 1] == "truncated" then all else all + ["truncated"]);
    }
  }

  lemma MarkedIsShort(tokens: seq<string>)
    requires AreShortTokens(tokens)
    ensures AreShortTokens(tokens + ["truncated"])
  {
    assert IsShortToken("truncated");
  }

  predicate AreLineEnds(s: string) {
    forall i :: 0 <= i < |s| ==> s[i] == '\r' || s[i] == '\n'
  }

  /** The line stands alone: nothing before it on its line, and only line ends after it. */
  lemma {:induction false} LineIsFound(before: string, line: string, after: string)
    requires before == [] || before[|before| - 1] == '\n'
    requires line != [] && forall i :: 0 <= i < |line| ==> line[i] != '\n' && line[i] != '\r'
    requires AreLineEnds(after)
    ensures LastLine(WithoutLineEnds(before + line + after)) == line
    decreases |after|, |line|
  {
    var output := before + line + after;
    if after == [] {
      assert output == before + line;
      LastLineAfter(before, line);
    } else {
      LineIsFound(before, line, after[..|after| - 1]);
      assert output[..|output| - 1] == before + line + after[..|after| - 1];
    }
  }

  lemma {:induction false} LastLineAfter(before: string, line: string)
    requires before == [] || before[|before| - 1] == '\n'
    requires forall i :: 0 <= i < |line| ==> line[i] != '\n'
    ensures LastLine(before + line) == line
  {
    if line == [] {
      assert before + line == before;
    } else {
      LastLineAfter(before, line[..|line| - 1]);
      assert (before + line)[..|before + line| - 1] == before + line[..|line| - 1];
    }
  }

  /** What the bounded line names: a front of the path, and behind it only markers. */
  predicate NamesFront(tokens: seq<string>, errors: seq<Error>, path: seq<nat>, kept: nat, registry: Registry)
    requires kept <= |path| && forall i :: 0 <= i < |path| ==> path[i] < |errors|
  {
    && kept <= |tokens|
    && (forall i :: 0 <= i < kept ==> tokens[i] == TokenOf(errors[path[i]].kind, registry))
    && (forall i :: kept <= i < |tokens| ==> tokens[i] in {"cycle", "truncated"})
  }

  lemma WholeNamesFront(all: seq<string>, errors: seq<Error>, path: seq<nat>, registry: Registry)
    requires IsPath(errors, path) && path != [] && IsWhole(errors, path)
    requires NamesPath(all, errors, path, Ending(errors, path), registry)
    ensures NamesFront(all, errors, path, |path|, registry)
  {
    forall i | |path| <= i < |all|
      ensures all[i] in {"cycle", "truncated"}
    {
      assert all[i] == all[|path|..][i - |path|];
    }
  }

  /** Cutting between a front of the tokens and a final marker leaves a shorter front. */
  lemma CutNamesFront(
    tokens: seq<string>, errors: seq<Error>, path: seq<nat>, named: nat, k: nat, registry: Registry)
    requires named <= |path| && forall i :: 0 <= i < |path| ==> path[i] < |errors|
    requires NamesFront(tokens, errors, path, named, registry) && k < |tokens|
    ensures NamesFront(tokens[..k] + ["truncated"], errors, path, if k < named then k else named, registry)
  {
    hide TokenOf;
  }

  lemma BoundedNamesFront(errors: seq<Error>, all: seq<string>, path: seq<nat>, registry: Registry)
    returns (kept: nat)
    requires IsPath(errors, path) && path != [] && IsWhole(errors, path)
    requires NamesPath(all, errors, path, Ending(errors, path), registry)
    ensures 0 < kept <= |path| && NamesFront(Bounded(all), errors, path, kept, registry)
    ensures Fits(all) ==> kept == |path|
  {
    WholeNamesFront(all, errors, path, registry);
    kept := |path|;
    if !Fits(all) {
      var marked := if all[|all| - 1] == "truncated" then all else all + ["truncated"];
      hide Ending, IsWhole, Join, TokenOf, Shortened, Fits, NamesFront;
      if |marked| == 1 {
        OneIsNotShortened(marked);
      } else {
        var k := ShortenedKeepsFront(marked);
        assert k <= |all| && marked[..k] == all[..k];
        if k < |all| {
          CutNamesFront(all, errors, path, |path|, k, registry);
          kept := if k < |path| then k else |path|;
        } else {
          MarkedNamesFront(all, errors, path, registry);
        }
      }
    }
  }

  lemma MarkedNamesFront(all: seq<string>, errors: seq<Error>, path: seq<nat>, registry: Registry)
    requires forall i :: 0 <= i < |path| ==> path[i] < |errors|
    requires NamesFront(all, errors, path, |path|, registry)
    ensures NamesFront(all[..|all|] + ["truncated"], errors, path, |path|, registry)
  {
    hide TokenOf;
  }

  lemma OneIsNotShortened(tokens: seq<string>)
    requires |tokens| <= 2
    ensures Shortened(tokens) == tokens
  {
  }

  /** Exceptions of the front that print a Boolean are all that the verifier refuses. */
  lemma FrontIsValid(
    tokens: seq<string>, errors: seq<Error>, path: seq<nat>, kept: nat, registry: Registry)
    requires registry.Valid() && kept <= |path| && (forall i :: 0 <= i < |path| ==> path[i] < |errors|)
    requires NamesFront(tokens, errors, path, kept, registry)
    ensures AllValid(tokens, registry) <==> forall i :: 0 <= i < kept ==> !HasBooleanErrno(errors[path[i]].kind)
  {
    hide HasBooleanErrno, TokenOf;
    forall i | 0 <= i < |tokens|
      ensures ValidToken(tokens[i], registry) <==> (i < kept ==> !HasBooleanErrno(errors[path[i]].kind))
    {
      if i < kept {
        TokenIsShort(errors[path[i]].kind, registry);
      }
    }
  }

  /**
   For every error chain, however long or cyclic, and whatever complete lines were printed
   before it: the line names a front of the chain's path, and the verifier takes exactly
   that line unless one of the exceptions named in it has a Boolean for its number.
   */
  lemma ProducedLineIsAccepted(
    errors: seq<Error>, start: nat, registry: Registry, before: string, after: string)
    returns (path: seq<nat>, kept: nat)
    requires registry.Valid() && ValidHeap(errors) && start < |errors|
    requires before == [] || before[|before| - 1] == '\n'
    requires AreLineEnds(after)
    ensures IsPath(errors, path) && 0 < kept <= |path| && path[0] == start && IsWhole(errors, path)
    ensures
      var all := Walk(errors, Some(start), {}, MAX_ERROR_CAUSES, registry);
      && all != [] && NamesFront(Bounded(all), errors, path, kept, registry)
      && (Fits(all) ==> kept == |path|)
    ensures
      var line := PREFIX + ErrorChain(errors, start, registry);
      && |line| <= MAX_CHARS
      && Detail(before + line + after, registry)
         == if forall i :: 0 <= i < kept ==> !HasBooleanErrno(errors[path[i]].kind) then Some(line) else None
  {
    BoundedIsShort(errors, start, registry);
    path := ChainIsNamed(errors, start, registry);
    var all := Walk(errors, Some(start), {}, MAX_ERROR_CAUSES, registry);
    kept := BoundedNamesFront(errors, all, path, registry);
    hide Walk, Bounded, Join, Detail, AreShortTokens, NamesFront, AllValid, HasBooleanErrno, Ending, NamesPath;
    FrontIsValid(Bounded(all), errors, path, kept, registry);
    ShortLineIsFound(Bounded(all), registry, before, after);
  }

  /** The shortest line that the verifier refuses: one error whose number is a Boolean. */
  lemma BooleanErrnoIsRefused(truth: bool, registry: Registry)
    requires registry.Valid()
    ensures
      var errors := [Error(Os(Boolean(truth)), None, None, true)];
      Detail(PREFIX + ErrorChain(errors, 0, registry), registry) == None
  {
    var errors := [Error(Os(Boolean(truth)), None, None, true)];
    var path, kept := ProducedLineIsAccepted(errors, 0, registry, "", "");
    assert HasBooleanErrno(errors[path[0]].kind);
    var line := PREFIX + ErrorChain(errors, 0, registry);
    assert "" + line + "" == line;
  }

  lemma ShortLineIsFound(tokens: seq<string>, registry: Registry, before: string, after: string)
    requires 1 <= |tokens| <= MAX_ERROR_CAUSES + 1 && AreShortTokens(tokens) && Fits(tokens)
    requires before == [] || before[|before| - 1] == '\n'
    requires AreLineEnds(after)
    ensures Detail(before + (PREFIX + Join(tokens)) + after, registry)
         == if AllValid(tokens, registry) then Some(PREFIX + Join(tokens)) else None
  {
    JoinIsText(tokens);
    PrefixIsText();
    ShortLineIsChecked(tokens, registry);
    hide Join, CheckedLine, LastLine, WithoutLineEnds;
    LineIsFound(before, PREFIX + Join(tokens), after);
  }

  lemma ShortLineIsChecked(tokens: seq<string>, registry: Registry)
    requires 1 <= |tokens| <= MAX_ERROR_CAUSES + 1 && AreShortTokens(tokens) && Fits(tokens)
    ensures CheckedLine(PREFIX + Join(tokens), registry)
         == if AllValid(tokens, registry) then Some(PREFIX + Join(tokens)) else None
  {
    SplitUndoesJoin(tokens);
    hide Join, Split, AllValid, AreShortTokens;
    assert (PREFIX + Join(tokens))[|PREFIX|..] == Join(tokens);
  }

  lemma PrefixIsText()
    ensures forall i :: 0 <= i < |PREFIX| ==> PREFIX[i] != '\n' && PREFIX[i] != '\r'
  {
  }

  // ---- Exactly which lines are accepted ----

  /** A line of at most 512 characters that names one to nine known tokens behind the prefix. */
  ghost predicate IsDiagnosticLine(line: string, registry: Registry) {
    && |line| <= 512
    && exists tokens: seq<string> ::
         1 <= |tokens| <= 9 && AllValid(tokens, registry) && line == PREFIX + Join(tokens)
  }

  /** The line is the last one of the output that is not just line ends. */
  ghost predicate IsLastLine(output: string, line: string) {
    exists before: string, after: string ::
      output == before + line + after && StartsLine(before) && AreLineEnds(after)
  }

  predicate StartsLine(before: string) {
    before == "" || before[|before| - 1] == '\n'
  }

  lemma {:induction false} JoinUndoesSplit(s: string)
    ensures Join(Split(s)) == s
  {
    if s != [] {
      var rest := Split(s[1..]);
      JoinUndoesSplit(s[1..]);
      if s[0] == '>' {
        assert ([[]] + rest)[1..] == rest;
      } else if |rest| > 1 {
        assert ([[s[0]] + rest[0]] + rest[1..])[1..] == rest[1..];
      }
    }
  }

  lemma {:induction false} StrippedAreLineEnds(output: string)
    ensures AreLineEnds(output[|WithoutLineEnds(output)|..])
  {
    if output != [] && (output[|output| - 1] == '\r' || output[|output| - 1] == '\n') {
      var shorter := output[..|output| - 1];
      StrippedAreLineEnds(shorter);
      var kept := |WithoutLineEnds(output)|;
      assert output[kept..] == shorter[kept..] + [output[|output| - 1]];
    }
  }

  lemma LastLineIsLast(output: string)
    ensures IsLastLine(output, LastLine(WithoutLineEnds(output)))
  {
    var text := WithoutLineEnds(output);
    var start := |text| - |LastLine(text)|;
    LastLineIsTail(text);
    StrippedAreLineEnds(output);
    assert output[..start] == text[..start] && output[start..|text|] == text[start..];
    hide AreLineEnds, LastLine, WithoutLineEnds, IsLastLine;
    LineBetween(output, start, |text|);
  }

  lemma LineBetween(output: string, start: nat, end: nat)
    requires start <= end <= |output| && StartsLine(output[..start]) && AreLineEnds(output[end..])
    ensures IsLastLine(output, output[start..end])
  {
    hide AreLineEnds, StartsLine;
    assert output == output[..start] + output[start..end] + output[end..];
  }

  lemma ValidTokensAreShort(tokens: seq<string>, registry: Registry)
    requires registry.Valid() && AllValid(tokens, registry)
    ensures AreShortTokens(tokens)
  {
    forall i | 0 <= i < |tokens|
      ensures IsShortToken(tokens[i])
    {
      ValidTokenIsShort(tokens[i], registry);
    }
  }

  lemma ValidTokenIsShort(token: string, registry: Registry)
    requires registry.Valid() && ValidToken(token, registry)
    ensures IsShortToken(token)
  {
    if OS_ERROR <= token && AllDigits(token[|OS_ERROR|..]) && |token| <= 14 {
      NumberedTokenIsShort(token);
    } else if token in FIXED_TOKENS {
      FixedTokensAreShort();
    } else if token in registry.contractTokens.Values {
      var message :| message in registry.contractTokens && registry.contractTokens[message] == token;
    } else {
      var name :| name in registry.classTokens && registry.classTokens[name] == token;
    }
  }

  lemma FixedTokensAreShort()
    ensures forall token :: token in FIXED_TOKENS ==> IsShortToken(token)
  {
  }

  lemma NumberedTokenIsShort(token: string)
    requires OS_ERROR <= token && AllDigits(token[|OS_ERROR|..]) && |token| <= 14
    ensures IsShortToken(token)
  {
    forall i | 0 <= i < |token|
      ensures token[i] != '>' && token[i] != '\n' && token[i] != '\r'
    {
      if i >= |OS_ERROR| {
        assert token[i] == token[|OS_ERROR|..][i - |OS_ERROR|];
        assert token[|OS_ERROR|..][i - |OS_ERROR|] in token[|OS_ERROR|..];
      } else {
        assert token[i] == OS_ERROR[i];
      }
    }
  }

  /** The verifier accepts exactly the output whose last line is such a line, and takes that line. */
  lemma AcceptedExactly(output: string, line: string, registry: Registry)
    requires registry.Valid()
    ensures Detail(output, registry) == Some(line)
            <==> IsLastLine(output, line) && IsDiagnosticLine(line, registry)
  {
    if Detail(output, registry) == Some(line) {
      LastLineIsLast(output);
      var tokens := Split(line[|PREFIX|..]);
      JoinUndoesSplit(line[|PREFIX|..]);
      assert line == PREFIX + Join(tokens) && 1 <= |tokens| <= 9 && AllValid(tokens, registry);
    } else if IsLastLine(output, line) && IsDiagnosticLine(line, registry) {
      DiagnosticLineIsTaken(output, line, registry);
    }
  }

  lemma DiagnosticLineIsTaken(output: string, line: string, registry: Registry)
    requires registry.Valid() && IsLastLine(output, line) && IsDiagnosticLine(line, registry)
    ensures Detail(output, registry) == Some(line)
  {
    var tokens :| 1 <= |tokens| <= 9 && AllValid(tokens, registry) && line == PREFIX + Join(tokens);
    var before, after :| output == before + line + after && StartsLine(before) && AreLineEnds(after);
    hide Join, Detail, AllValid, AreShortTokens, Split;
    ValidTokensAreShort(tokens, registry);
    assert |line| == |PREFIX| + |Join(tokens)|;
    ShortLineIsFound(tokens, registry, before, after);
  }

  // ---- The chain in its own terms ----

  /** The exception that was named as the cause, or the one being handled unless that is suppressed. */
  predicate Follows(error: Error, next: nat) {
    error.cause == Some(next) || (error.cause.None? && !error.suppressContext && error.context == Some(next))
  }

  /** The token of one exception, for each kind. */
  predicate Names(token: string, kind: Kind, registry: Registry) {
    match kind
    case Contract(message) =>
      if message in registry.contractTokens then token == registry.contractTokens[message]
      else token == "contract_error"
    case Sqlite => token == "sqlite_error"
    case Os(NoNumber) => token == "unexpected_error"
    case Os(Boolean(truth)) => token == if truth then "os_error_True" else "os_error_False"
    case Os(Number(errno)) =>
      if errno < 0 || errno > 99_999 then token == "unexpected_error"
      else "os_error_" <= token && AllDigits(token[9..]) && NumberOf(token[9..]) == errno
    case Other(className) =>
      if className in registry.classTokens then token == registry.classTokens[className]
      else token == "unexpected_error"
  }

  lemma TokenNames(kind: Kind, registry: Registry)
    ensures Names(TokenOf(kind, registry), kind, registry)
  {
    if kind.Os? && kind.errno.Number? && 0 <= kind.errno.value <= 99_999 {
      var digits := Decimal(kind.errno.value);
      DecimalIsRead(kind.errno.value);
      assert (OS_ERROR + digits)[9..] == digits;
    }
  }

  /**
   The named chain without the functions that compute it: from every exception there are at
   most eight different ones, each following the one before; they are named in order; and
   the end is silent exactly if nothing follows the last.
   */
  lemma ChainFollowsLinks(errors: seq<Error>, start: nat, registry: Registry) returns (path: seq<nat>)
    requires ValidHeap(errors) && start < |errors|
    ensures 0 < |path| <= 8 && path[0] == start
    ensures forall i :: 0 <= i < |path| ==> path[i] < |errors|
    ensures forall i, j :: 0 <= i < j < |path| ==> path[i] != path[j]
    ensures forall i :: 0 <= i < |path| - 1 ==> Follows(errors[path[i]], path[i + 1])
    ensures var tokens := Walk(errors, Some(start), {}, 8, registry);
            var last := errors[path[|path| - 1]];
            && |path| <= |tokens|
            && (forall i :: 0 <= i < |path| ==> Names(tokens[i], errors[path[i]].kind, registry))
            && (tokens[|path|..] == [] <==> forall next: nat :: !Follows(last, next))
            && (tokens[|path|..] != [] ==>
                  if |path| == 8 then tokens[8..] == ["truncated"]
                  else
                    && (exists next :: next in path && Follows(last, next))
                    && tokens[|path|..] == if |path| == 7 then ["cycle", "truncated"] else ["cycle"])
  {
    path := ChainIsNamed(errors, start, registry);
    var tokens := Walk(errors, Some(start), {}, 8, registry);
    forall i | 0 <= i < |path|
      ensures Names(tokens[i], errors[path[i]].kind, registry)
    {
      TokenNames(errors[path[i]].kind, registry);
    }
    var last := errors[path[|path| - 1]];
    NextFollows(last);
    forall i | 0 <= i < |path| - 1
      ensures Follows(errors[path[i]], path[i + 1])
    {
      NextFollows(errors[path[i]]);
    }
    hide Walk, TokenOf, Names, Follows;
  }

  lemma NextFollows(error: Error)
    ensures forall next: nat :: Follows(error, next) <==> error.Next() == Some(next)
    ensures error.Next().None? <==> forall next: nat :: !Follows(error, next)
  {
    if error.Next().Some? {
      assert Follows(error, error.Next().value);
    }
  }
}
