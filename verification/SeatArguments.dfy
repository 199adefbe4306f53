/**
 The `seatId:seatType` arguments of the batch reserve script: the service's
 printer, the script's Lua pattern `([^:]+):([^:]+)`, and when one undoes the other.
 */
module SeatArguments {
  import opened Basics
  import opened SeatModel

  const COLON: CodeUnit := 58

  predicate Plain(s: Str) {
    s != [] && COLON !in s
  }

  function PrintRequest(r: Request): Str {
    r.id + [COLON] + r.seatType
  }

  function PrintRequests(reqs: seq<Request>): (args: seq<Str>)
    ensures |args| == |reqs|
    ensures forall i :: 0 <= i < |reqs| ==> args[i] == PrintRequest(reqs[i])
  {
    seq(|reqs|, i requires 0 <= i < |reqs| => PrintRequest(reqs[i]))
  }

  /** The end of the longest colon-free run that starts at `i`. */
  function RunEnd(s: Str, i: nat): (j: nat)
    requires i <= |s|
    ensures i <= j <= |s|
    ensures forall k :: i <= k < j ==> s[k] != COLON
    ensures j < |s| ==> s[j] == COLON
    decreases |s| - i
  {
    if i < |s| && s[i] != COLON then RunEnd(s, i + 1) else i
  }

  /**
   Lua's unanchored match, tried at `i` and then further right. A greedy run of
   non-colons can only be followed by a colon at its very end, so backtracking
   into the run never helps.
   */
  function MatchFrom(s: Str, i: nat): (r: Option<Request>)
    requires i <= |s|
    ensures r.Some? ==> Plain(r.value.id) && Plain(r.value.seatType)
    decreases |s| - i
  {
    if i == |s| then None
    else
      var j := RunEnd(s, i);
      if i < j < |s| && j + 1 < |s| && s[j + 1] != COLON
      then Some(Request(s[i..j], s[j + 1..RunEnd(s, j + 1)]))
      else MatchFrom(s, i + 1)
  }

  function ParseRequest(info: Str): (r: Option<Request>)
    ensures r.Some? ==> Plain(r.value.id) && Plain(r.value.seatType)
  {
    MatchFrom(info, 0)
  }

  /** The script's parse loop after `n` of its rounds. */
  function ParseArguments(args: seq<Str>, n: nat): Result<seq<Request>, InputError> {
    if n == 0 then Ok([])
    else match ParseArguments(args, n - 1)
      case Err(e) => Err(e)
      case Ok(reqs) =>
        if n > |args| then Err(MissingSeat(n))
        else match ParseRequest(args[n - 1])
          case None => Err(BadSeatFormat(args[n - 1]))
          case Some(r) => Ok(reqs + [r])
  }

  /** The parser gives back exactly what was printed if and only if both parts are non-empty and colon-free. */
  lemma ParsePrint(r: Request)
    ensures ParseRequest(PrintRequest(r)) == Some(r) <==> Plain(r.id) && Plain(r.seatType)
  {
    if Plain(r.id) && Plain(r.seatType) {
      var s := PrintRequest(r);
      var n := |r.id|;
      assert forall k :: 0 <= k < n ==> s[k] == r.id[k];
      assert s[n] == COLON;
      assert forall k :: n < k < |s| ==> s[k] == r.seatType[k - n - 1];
      assert RunEnd(s, 0) == n;
      assert s[n + 1] == r.seatType[0];
      assert RunEnd(s, n + 1) == |s|;
      assert s[0..n] == r.id && s[n + 1..|s|] == r.seatType;
    }
  }

  lemma {:induction false} ParsedPrefix(args: seq<Str>, n: nat)
    requires n > 0 && ParseArguments(args, n).Ok?
    ensures |ParseArguments(args, n).value| == n
    ensures ParseArguments(args, n - 1) == Ok(ParseArguments(args, n).value[..n - 1])
  {
    if n > 1 {
      ParsedPrefix(args, n - 1);
    }
  }

  /** So the script works on the very list the service was given, if and only if all its seats are plain. */
  lemma {:induction false} ParsePrintAll(reqs: seq<Request>, n: nat)
    requires n <= |reqs|
    ensures ParseArguments(PrintRequests(reqs), n) == Ok(reqs[..n]) <==>
            forall i :: 0 <= i < n ==> Plain(reqs[i].id) && Plain(reqs[i].seatType)
  {
    if n > 0 {
      var args := PrintRequests(reqs);
      ParsePrintAll(reqs, n - 1);
      ParsePrint(reqs[n - 1]);
      assert reqs[..n] == reqs[..n - 1] + [reqs[n - 1]];
      if ParseArguments(args, n) == Ok(reqs[..n]) {
        ParsedPrefix(args, n);
        assert reqs[..n][..n - 1] == reqs[..n - 1];
        assert ParseArguments(args, n).value[n - 1] == ParseRequest(args[n - 1]).value;
      }
    }
  }

  // ----- any argument -----

  /** A colon with something to keep on both sides. */
  predicate Separates(s: Str, p: int) {
    0 < p < |s| - 1 && s[p] == COLON && s[p - 1] != COLON && s[p + 1] != COLON
  }

  /** `s[i..j]` is a colon-free run that cannot be extended to either side. */
  predicate WholeRun(s: Str, i: int, j: int) {
    && 0 <= i < j <= |s| && (forall k :: i <= k < j ==> s[k] != COLON)
    && (i == 0 || s[i - 1] == COLON) && (j == |s| || s[j] == COLON)
  }

  /** A run that is not followed by a separating colon is passed over as a whole, and so is the colon after it. */
  lemma {:induction false} SkipRun(s: Str, i: nat)
    requires i < |s| && !Separates(s, RunEnd(s, i)) && (i == RunEnd(s, i) ==> i == 0 || s[i - 1] == COLON)
    ensures var j := RunEnd(s, i); MatchFrom(s, i) == MatchFrom(s, if j < |s| then j + 1 else j)
    decreases |s| - i
  {
    var j := RunEnd(s, i);
    if i < j {
      assert MatchFrom(s, i) == MatchFrom(s, i + 1);
      if i + 1 < j {
        SkipRun(s, i + 1);
      } else if j < |s| {
        assert RunEnd(s, j) == j;
      }
    }
  }

  lemma MatchHere(s: Str, i: nat)
    requires i <= |s| && (i == 0 || s[i - 1] == COLON) && Separates(s, RunEnd(s, i))
    ensures var p := RunEnd(s, i);
            && WholeRun(s, i, p) && WholeRun(s, p + 1, RunEnd(s, p + 1))
            && MatchFrom(s, i) == Some(Request(s[i..p], s[p + 1..RunEnd(s, p + 1)]))
  {
  }

  /** `r` is what stands around the first separating colon from `i` on, if there is one. */
  ghost predicate AtFirstColon(s: Str, i: int, r: Option<Request>, from: nat, p: nat, to: nat) {
    match r
    case None => forall q :: i <= q ==> !Separates(s, q)
    case Some(request) =>
      && Separates(s, p) && (forall q :: i <= q < p ==> !Separates(s, q))
      && WholeRun(s, from, p) && WholeRun(s, p + 1, to) && request == Request(s[from..p], s[p + 1..to])
  }

  lemma AtFirstColonEarlier(s: Str, i: int, j: int, r: Option<Request>, from: nat, p: nat, to: nat)
    requires i <= j && AtFirstColon(s, j, r, from, p, to) && forall q :: i <= q < j ==> !Separates(s, q)
    ensures AtFirstColon(s, i, r, from, p, to)
  {
  }

  lemma {:induction false} MatchIsFirst(s: Str, i: nat) returns (from: nat, p: nat, to: nat)
    requires i <= |s| && (i == 0 || s[i - 1] == COLON)
    ensures AtFirstColon(s, i, MatchFrom(s, i), from, p, to)
    decreases |s| - i
  {
    from, p, to := 0, 0, 0;
    if i < |s| {
      var j := RunEnd(s, i);
      assert forall q :: i <= q < j ==> !Separates(s, q);
      if Separates(s, j) {
        MatchHere(s, i);
        from, p, to := i, j, RunEnd(s, j + 1);
      } else {
        SkipRun(s, i);
        if j < |s| {
          from, p, to := MatchIsFirst(s, j + 1);
          AtFirstColonEarlier(s, i, j + 1, MatchFrom(s, j + 1), from, p, to);
        }
      }
    }
  }

  /**
   The pattern on any argument: it takes the first colon with a non-colon on both sides, and the whole runs around
   it; it fails if and only if there is no such colon.
   */
  lemma ParsedAtFirstColon(s: Str) returns (from: nat, p: nat, to: nat)
    ensures AtFirstColon(s, 0, ParseRequest(s), from, p, to)
    ensures ParseRequest(s).None? <==> forall q :: !Separates(s, q)
  {
    from, p, to := MatchIsFirst(s, 0);
    assert forall q :: q <= 0 ==> !Separates(s, q);
  }

  /** The parse loop gives every argument's seat in order, or the first error it meets. */
  lemma {:induction false} ParsedOrFirstError(args: seq<Str>, n: nat)
    ensures var r := ParseArguments(args, n);
            && (r.Ok? <==> n <= |args| && forall i :: 0 <= i < n ==> ParseRequest(args[i]).Some?)
            && (r.Ok? ==> |r.value| == n && forall i :: 0 <= i < n ==> Some(r.value[i]) == ParseRequest(args[i]))
            && (r.Err? ==>
                  || (r.error == MissingSeat(|args| + 1) && n > |args| &&
                      forall i :: 0 <= i < |args| ==> ParseRequest(args[i]).Some?)
                  || exists i :: 0 <= i < n && i < |args| && r.error == BadSeatFormat(args[i]) &&
                                 ParseRequest(args[i]).None? && forall j :: 0 <= j < i ==> ParseRequest(args[j]).Some?)
  {
    if n > 0 {
      ParsedOrFirstError(args, n - 1);
    }
  }
}
