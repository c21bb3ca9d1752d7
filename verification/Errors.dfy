/** Error chains and the default classifier of errors.go. */
module Errors {
  import opened Types

  /** The package-level errors the classifier asks for with errors.Is. */
  datatype Sentinel =
    | NotExist | Exist | Permission | Invalid | Eof
    | UnexpectedEof | ShortWrite | ClosedPipe

  datatype Errno =
    | ENOENT | EEXIST | EACCES | EPERM | EINVAL | EISDIR | ENOTDIR | ENOTEMPTY | EROFS | ENOSPC | EDQUOT
    | EAGAIN | EINTR | EIO | ENFILE | EMFILE | ETIMEDOUT | ECONNREFUSED | ECONNRESET | ECONNABORTED
    | ENETUNREACH | EHOSTUNREACH | EPIPE
    | OtherErrno(code: int)

  /** A singly wrapped error. `text` is the whole message of an error that carries its own; a path
      or link error prefixes the message of the error it wraps, which may be missing. */
  datatype Error =
    | Known(sentinel: Sentinel, text: string)
    | Syscall(errno: Errno, text: string)
    | Network(timeout: bool, temporary: bool, text: string, inner: Option<Error>)
    | PathError(op: string, path: string, inner: Option<Error>)
    | LinkError(op: string, from: string, to: string, inner: Option<Error>)
    | Wrapped(text: string, cause: Error)
    | Plain(text: string)

  const CIRCUIT_OPEN := Plain("circuit breaker is open")

  function Unwrap(e: Error): Option<Error> {
    match e
    case Network(_, _, _, inner) => inner
    case PathError(_, _, inner) => inner
    case LinkError(_, _, _, inner) => inner
    case Wrapped(_, cause) => Some(cause)
    case _ => None
  }

  predicate IsPathWrapper(e: Error) { e.PathError? || e.LinkError? }

  function Message(e: Error): string {
    match e
    case PathError(op, path, Some(inner)) => op + " " + path + ": " + Message(inner)
    case PathError(op, path, None) => op + " " + path + ": "
    case LinkError(op, from, to, Some(inner)) => op + " " + from + " " + to + ": " + Message(inner)
    case LinkError(op, from, to, None) => op + " " + from + " " + to + ": "
    case Wrapped(text, _) => text
    case Network(_, _, text, _) => text
    case Known(_, text) => text
    case Syscall(_, text) => text
    case Plain(text) => text
  }

  // ----- Chain searches: errors.Is and errors.As -----

  /** A system call number answers errors.Is for three of the package-level errors. */
  predicate ErrnoIs(n: Errno, s: Sentinel) {
    match s
    case NotExist => n == ENOENT
    case Exist => n == EEXIST || n == ENOTEMPTY
    case Permission => n == EACCES || n == EPERM
    case _ => false
  }

  predicate Is(e: Error, s: Sentinel) {
    || (e.Known? && e.sentinel == s)
    || (e.Syscall? && ErrnoIs(e.errno, s))
    || (var next := Unwrap(e); next.Some? && Is(next.value, s))
  }

  /** The first error of the chain that `wanted` accepts. */
  function As(e: Error, wanted: Error -> bool): (found: Option<Error>)
    ensures found.Some? ==> wanted(found.value) && (found.value == e || found.value < e)
  {
    if wanted(e) then Some(e)
    else
      var next := Unwrap(e);
      if next.Some? then As(next.value, wanted) else None
  }

  const AN_ERRNO := (e: Error) => e.Syscall?
  const A_NETWORK_ERROR := (e: Error) => e.Network?
  const A_PATH_ERROR := (e: Error) => e.PathError?
  const A_LINK_ERROR := (e: Error) => e.LinkError?

  // ----- Classification -----

  function ClassifySentinel(e: Error): Option<ErrorClass> {
    if Is(e, NotExist) then Some(Permanent)
    else if Is(e, Exist) then Some(Permanent)
    else if Is(e, Permission) then Some(Permanent)
    else if Is(e, Invalid) then Some(Permanent)
    else if Is(e, Eof) then Some(Permanent)
    else if Is(e, UnexpectedEof) then Some(Retryable)
    else if Is(e, ShortWrite) then Some(Retryable)
    else if Is(e, ClosedPipe) then Some(Retryable)
    else None
  }

  function ClassifySyscall(n: Errno): ErrorClass {
    match n
    case ENOENT | EEXIST | EACCES | EPERM | EINVAL | EISDIR | ENOTDIR | ENOTEMPTY | EROFS | ENOSPC | EDQUOT => Permanent
    case EAGAIN | EINTR | EIO | ENFILE | EMFILE | ETIMEDOUT | ECONNREFUSED | ECONNRESET | ECONNABORTED => Retryable
    case ENETUNREACH | EHOSTUNREACH | EPIPE => Retryable
    case OtherErrno(_) => Unknown
  }

  function LowerChar(c: char): char {
    if 'A' <= c <= 'Z' then c - 'A' + 'a' else c
  }

  function Lower(s: string): string { seq(|s|, i requires 0 <= i < |s| => LowerChar(s[i])) }

  predicate Contains(s: string, part: string) {
    part <= s || (s != [] && Contains(s[1..], part))
  }

  const RETRYABLE_PATTERNS: seq<string> := [
    "timeout", "timed out", "temporary failure", "temporarily unavailable", "connection refused",
    "connection reset", "broken pipe", "too many open files", "resource temporarily unavailable",
    "503", "service unavailable", "throttl", "rate limit", "try again"]

  const PERMANENT_PATTERNS: seq<string> := [
    "not found", "404", "does not exist", "permission denied", "403", "unauthorized", "401",
    "invalid argument", "400", "bad request", "not supported", "not implemented", "quota exceeded",
    "no space left"]

  function ClassifyByMessage(text: string): ErrorClass {
    var lower := Lower(text);
    if exists p | p in RETRYABLE_PATTERNS :: Contains(lower, p) then Retryable
    else if exists p | p in PERMANENT_PATTERNS :: Contains(lower, p) then Permanent
    else Unknown
  }

  predicate Transient(e: Error) { e.Network? && (e.timeout || e.temporary) }

  /** The default classifier. Every recursive call is on a strictly smaller chain. */
  function Classify(err: Option<Error>): ErrorClass
    decreases err
  {
    if err.None? then Unknown
    else
      var e := err.value;
      var known, errno, net := ClassifySentinel(e), As(e, AN_ERRNO), As(e, A_NETWORK_ERROR);
      var path, link := As(e, A_PATH_ERROR), As(e, A_LINK_ERROR);
      if known.Some? then known.value
      else if errno.Some? then ClassifySyscall(errno.value.errno)
      else if net.Some? && Transient(net.value) then Retryable
      else if path.Some? then Classify(path.value.inner)
      else if link.Some? then Classify(link.value.inner)
      else ClassifyByMessage(Message(e))
  }

  /** The errors of a chain from the outermost to the innermost. */
  function Chain(e: Error): (chain: seq<Error>)
    ensures chain != [] && chain[0] == e
  {
    var next := Unwrap(e);
    if next.Some? then [e] + Chain(next.value) else [e]
  }

  /** errors.Is looks at every error of the chain. */
  lemma {:induction false} IsLooksEverywhere(e: Error, s: Sentinel)
    ensures Is(e, s) <==> exists x :: x in Chain(e) && AnswersTo(x, s)
  {
    if Unwrap(e).Some? {
      var rest := Chain(Unwrap(e).value);
      IsLooksEverywhere(Unwrap(e).value, s);
      assert forall x :: x in Chain(e) <==> x == e || x in rest;
    }
    assert e in Chain(e);
  }

  /** errors.As finds the first error of the chain that is wanted, if there is one. */
  lemma {:induction false} AsFindsTheFirst(e: Error, wanted: Error -> bool) returns (i: nat)
    ensures i <= |Chain(e)| && forall j :: 0 <= j < i ==> !wanted(Chain(e)[j])
    ensures As(e, wanted) == if i < |Chain(e)| then Some(Chain(e)[i]) else None
    ensures i < |Chain(e)| ==> wanted(Chain(e)[i])
  {
    i := 0;
    if !wanted(e) {
      i := 1;
      if Unwrap(e).Some? {
        var k := AsFindsTheFirst(Unwrap(e).value, wanted);
        i := k + 1;
      }
    }
  }

  /** What one error by itself answers to errors.Is. */
  predicate AnswersTo(e: Error, s: Sentinel) { (e.Known? && e.sentinel == s) || (e.Syscall? && ErrnoIs(e.errno, s)) }

  // ----- Path and link wrappers are transparent -----

  /** Wrapping an error in a path or link error never changes its class. */
  lemma SeesThroughWrappers(w: Error)
    requires IsPathWrapper(w) && w.inner.Some?
    ensures Classify(Some(w)) == Classify(w.inner)
  {
    var e := w.inner.value;
    assert ClassifySentinel(w) == ClassifySentinel(e);
    assert As(w, AN_ERRNO) == As(e, AN_ERRNO) && As(w, A_NETWORK_ERROR) == As(e, A_NETWORK_ERROR);
    if w.LinkError? {
      assert As(w, A_PATH_ERROR) == As(e, A_PATH_ERROR);
    }
  }

  /** `outer` is `inner` inside any number of path and link errors. */
  predicate Layered(outer: Error, inner: Error) {
    outer == inner || (IsPathWrapper(outer) && outer.inner.Some? && Layered(outer.inner.value, inner))
  }

  /** Nor do any number of such layers. */
  lemma {:induction false} SeesThroughLayers(outer: Error, inner: Error)
    requires Layered(outer, inner)
    ensures Classify(Some(outer)) == Classify(Some(inner))
  {
    if outer != inner {
      SeesThroughWrappers(outer);
      SeesThroughLayers(outer.inner.value, inner);
    }
  }

  /** The part of the chain below the innermost path or link wrapper. */
  function Beneath(e: Error): Option<Error> {
    var next := Unwrap(e);
    if next.Some? && HasWrapper(next.value) then Beneath(next.value)
    else if IsPathWrapper(e) then next
    else Some(e)
  }

  predicate HasWrapper(e: Error) {
    IsPathWrapper(e) || (var next := Unwrap(e); next.Some? && HasWrapper(next.value))
  }

  /** The classifier continues beneath any path error, and beneath a link error if no path error is left. */
  predicate JumpedTo(e: Error) {
    e.PathError? || (e.LinkError? && As(e, A_PATH_ERROR).None?)
  }

  predicate FirstIsTransient(e: Error) {
    var net := As(e, A_NETWORK_ERROR);
    net.Some? && Transient(net.value)
  }

  /** Directly beneath some wrapper that the classifier jumps to, the first network error is transient. */
  predicate TransientBeneath(e: Error) {
    var next := Unwrap(e);
    next.Some? && (TransientBeneath(next.value) || (JumpedTo(e) && FirstIsTransient(next.value)))
  }

  /** A jump to a path or link wrapper skips nothing that the other stages look for. */
  lemma {:induction false} JumpKeeps(e: Error, wanted: Error -> bool)
    requires wanted == A_PATH_ERROR || (wanted == A_LINK_ERROR && As(e, A_PATH_ERROR).None?)
    requires As(e, wanted).Some?
    ensures var w := As(e, wanted).value;
            && JumpedTo(w) && HasWrapper(e) && Beneath(w) == Beneath(e)
            && ClassifySentinel(w) == ClassifySentinel(e)
            && As(w, AN_ERRNO) == As(e, AN_ERRNO)
            && TransientBeneath(w) == TransientBeneath(e)
  {
    if !wanted(e) {
      var next := Unwrap(e).value;
      JumpKeeps(next, wanted);
      WrappingKeepsSentinels(e);
    }
  }

  lemma WrappingKeepsSentinels(e: Error)
    requires Unwrap(e).Some?
    ensures ClassifySentinel(Unwrap(e).value) == ClassifySentinel(e)
  {
    forall s: Sentinel
      ensures Is(e, s) == Is(Unwrap(e).value, s)
    {
    }
  }

  lemma {:induction false} NoWrapperFound(e: Error)
    requires As(e, A_PATH_ERROR).None? && As(e, A_LINK_ERROR).None?
    ensures !HasWrapper(e) && !TransientBeneath(e) && Beneath(e) == Some(e)
  {
    if Unwrap(e).Some? {
      NoWrapperFound(Unwrap(e).value);
    }
  }

  /** The class the message stage gives to what lies beneath the innermost wrapper. */
  function MessageClass(e: Error): ErrorClass {
    var rest := Beneath(e);
    if rest.Some? then ClassifyByMessage(Message(rest.value)) else Unknown
  }

  /** The classifier in closed form. A package-level error anywhere in the chain decides; else a
      system call number anywhere decides; else the first network error decides if it is transient,
      and so does the first one beneath each wrapper that is jumped to; else the class is read from
      the message beneath the innermost path or link wrapper and from nothing else. */
  lemma {:induction false} ClassifyCharacterised(e: Error)
    ensures var known, errno := ClassifySentinel(e), As(e, AN_ERRNO);
            Classify(Some(e)) ==
            if known.Some? then known.value
            else if errno.Some? then ClassifySyscall(errno.value.errno)
            else if FirstIsTransient(e) || TransientBeneath(e) then Retryable
            else MessageClass(e)
    decreases e, 1
  {
    if ClassifySentinel(e).None? && As(e, AN_ERRNO).None? {
      var path, link := As(e, A_PATH_ERROR), As(e, A_LINK_ERROR);
      if path.Some? {
        Descend(e, A_PATH_ERROR);
      } else if link.Some? {
        Descend(e, A_LINK_ERROR);
      } else {
        NoWrapperFound(e);
      }
    }
  }

  /** The recursive step of ClassifyCharacterised. */
  lemma {:induction false} Descend(e: Error, wanted: Error -> bool)
    requires wanted == A_PATH_ERROR || (wanted == A_LINK_ERROR && As(e, A_PATH_ERROR).None?)
    requires As(e, wanted).Some? && ClassifySentinel(e).None? && As(e, AN_ERRNO).None?
    ensures IsPathWrapper(As(e, wanted).value)
    ensures Classify(As(e, wanted).value.inner) == if TransientBeneath(e) then Retryable else MessageClass(e)
    decreases e, 0
  {
    var w := As(e, wanted).value;
    JumpKeeps(e, wanted);
    if w.inner.Some? {
      var u := w.inner.value;
      WrappingKeepsSentinels(w);
      ClassifyCharacterised(u);
    }
  }

  // ----- What the classifier answers, code by code and pattern by pattern -----

  function Leaf(e: Error): Error {
    var next := Unwrap(e);
    if next.Some? then Leaf(next.value) else e
  }

  lemma {:induction false} LeafIsAsked(e: Error, s: Sentinel)
    ensures Is(e, s) == Is(Leaf(e), s) && As(e, AN_ERRNO) == As(Leaf(e), AN_ERRNO)
  {
    if Unwrap(e).Some? {
      LeafIsAsked(Unwrap(e).value, s);
    }
  }

  lemma {:induction false} SentinelsOfLeaf(e: Error)
    ensures ClassifySentinel(e) == ClassifySentinel(Leaf(e)) && As(e, AN_ERRNO) == As(Leaf(e), AN_ERRNO)
  {
    forall s: Sentinel
      ensures Is(e, s) == Is(Leaf(e), s)
    {
      LeafIsAsked(e, s);
    }
    LeafIsAsked(e, NotExist);
  }

  /** However an error is wrapped, a package-level error at the bottom of its chain is permanent or
      retryable by itself. */
  lemma {:induction false} KnownErrorsDecide(e: Error)
    requires Leaf(e).Known?
    ensures Classify(Some(e)) == if Leaf(e).sentinel in {NotExist, Exist, Permission, Invalid, Eof} then Permanent
                                 else Retryable
  {
    SentinelsOfLeaf(e);
  }

  /** And so is a system call number, if it is one of the listed ones; the package-level errors that some
      numbers stand for never change that. */
  lemma {:induction false} SyscallsDecide(e: Error)
    requires Leaf(e).Syscall?
    ensures var n := Leaf(e).errno;
            Classify(Some(e)) == if n in {ENOENT, EEXIST, EACCES, EPERM, EINVAL, EISDIR, ENOTDIR, ENOTEMPTY, EROFS,
                                          ENOSPC, EDQUOT} then Permanent
                                 else if n in {EAGAIN, EINTR, EIO, ENFILE, EMFILE, ETIMEDOUT, ECONNREFUSED, ECONNRESET,
                                               ECONNABORTED, ENETUNREACH, EHOSTUNREACH, EPIPE} then Retryable
                                 else Unknown
  {
    SentinelsOfLeaf(e);
  }

  /** The numbers that answer errors.Is: for not existing, for existing, and for a missing permission. */
  lemma NumbersStandFor(e: Error, n: Errno)
    requires e.Syscall? && e.errno == n
    ensures Is(e, NotExist) <==> n == ENOENT
    ensures Is(e, Exist) <==> n in {EEXIST, ENOTEMPTY}
    ensures Is(e, Permission) <==> n in {EACCES, EPERM}
    ensures forall s :: s !in {NotExist, Exist, Permission} ==> !Is(e, s)
  {
  }

  /** An error that wraps nothing but plain errors is classified by its own text, which is that of its
      outermost layer; a single network error by what it says of itself and else by its text. */
  lemma {:induction false} TextDecides(e: Error)
    requires e.Plain? || (e.Wrapped? && Bare(e.cause)) || (e.Network? && e.inner.None?)
    ensures Classify(Some(e)) == if e.Network? && (e.timeout || e.temporary) then Retryable
                                 else ClassifyByMessage(e.text)
  {
    BareIsOpaque(e);
  }

  predicate Bare(e: Error) { e.Plain? || (e.Wrapped? && Bare(e.cause)) }

  lemma {:induction false} BareIsOpaque(e: Error)
    ensures Bare(e) ==> ClassifySentinel(e).None? && As(e, AN_ERRNO).None? && As(e, A_NETWORK_ERROR).None?
                        && As(e, A_PATH_ERROR).None? && As(e, A_LINK_ERROR).None?
  {
    if e.Wrapped? && Bare(e.cause) {
      BareIsOpaque(e.cause);
      WrappingKeepsSentinels(e);
    }
  }

  predicate Splits(s: string, before: string, part: string, after: string) { s == before + part + after }

  lemma {:induction false} ContainsSplits(s: string, part: string) returns (before: string, after: string)
    requires Contains(s, part)
    ensures Splits(s, before, part, after)
  {
    if part <= s {
      before, after := [], s[|part|..];
    } else {
      before, after := ContainsSplits(s[1..], part);
      before := [s[0]] + before;
    }
  }

  lemma {:induction false} SplitsContain(s: string, before: string, part: string, after: string)
    requires Splits(s, before, part, after)
    ensures Contains(s, part)
  {
    if before != [] {
      SplitsContain(s[1..], before[1..], part, after);
    }
  }

  /** Contains is strings.Contains. */
  lemma {:induction false} ContainsIff(s: string, part: string)
    ensures Contains(s, part) <==> exists before, after :: Splits(s, before, part, after)
  {
    if Contains(s, part) {
      var before, after := ContainsSplits(s, part);
    }
    forall before, after | Splits(s, before, part, after)
      ensures Contains(s, part)
    {
      SplitsContain(s, before, part, after);
    }
  }

  /** A text is retryable exactly when one of the fourteen retryable patterns occurs in it, whatever its
      case, and permanent exactly when none of these but one of the fourteen permanent ones does. */
  lemma {:induction false} PatternsDecide(text: string)
    ensures var retryable := ["timeout", "timed out", "temporary failure", "temporarily unavailable",
                              "connection refused", "connection reset", "broken pipe", "too many open files",
                              "resource temporarily unavailable", "503", "service unavailable", "throttl", "rate limit",
                              "try again"];
            var permanent := ["not found", "404", "does not exist", "permission denied", "403", "unauthorized", "401",
                              "invalid argument", "400", "bad request", "not supported", "not implemented",
                              "quota exceeded", "no space left"];
            ClassifyByMessage(text) == if Occurs(Lower(text), retryable) then Retryable
                                       else if Occurs(Lower(text), permanent) then Permanent
                                       else Unknown
  {
    forall p: string
      ensures Contains(Lower(text), p) <==> exists before, after :: Splits(Lower(text), before, p, after)
    {
      ContainsIff(Lower(text), p);
    }
  }

  ghost predicate Occurs(s: string, patterns: seq<string>) {
    exists p, before, after :: p in patterns && Splits(s, before, p, after)
  }

  /** Lower folds the capital letters and nothing else. */
  lemma LowerFolds(s: string)
    ensures Lower("ABCDEFGHIJKLMNOPQRSTUVWXYZ") == "abcdefghijklmnopqrstuvwxyz"
    ensures |Lower(s)| == |s| && forall i :: 0 <= i < |s| ==> !('A' <= Lower(s)[i] <= 'Z')
    ensures forall i :: 0 <= i < |s| && !('A' <= s[i] <= 'Z') ==> Lower(s)[i] == s[i]
  {
  }
}
