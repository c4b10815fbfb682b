/** `katagrapho-verify --check-chain` on a directory: the log first, then the head, then the tree. */
module Verdict {
  import opened Wrappers
  import opened Signing
  import opened ChainLog
  import opened ChainDir
  import opened Quiescence
  import opened Corpus

  datatype Verdict =
    | Verified(report: VerifyResult)
    | LogRejected(why: LogError)
    | HeadDisagrees(head: string, tip: string)
    | TreeRejected(failure: Failure)
    | UnsignedFound(recordings: seq<Place>)

  /** What the tree check is anchored to: nothing, when the head cannot be read or no chain is checked. */
  function AnchorOf(d: Disk, checkChain: bool): Option<string> {
    if checkChain && HeadValue(d.head).Ok? then Some(HeadValue(d.head).value) else None
  }

  ghost predicate Earned(k: Suite, d: Disk, root: seq<Child>, checkChain: bool, v: Verdict) {
    var log, head, anchor := LogVerdict(k, d.log), HeadValue(d.head), AnchorOf(d, checkChain);
    match v
    case LogRejected(why) => checkChain && log == Err(why)
    case HeadDisagrees(h, t) => checkChain && head == Ok(h) && log.Ok? && TipHash(log.value.seen) == Some(t) && h != t
    case TreeRejected(failure) => Justifies(k, root, anchor, failure)
    case UnsignedFound(ps) =>
      ps != [] && Passing(k, root, checkChain, anchor) && Report(k, root, checkChain).unsignedRecordings == ps
    case Verified(report) => Passing(k, root, checkChain, anchor) && report == Report(k, root, checkChain)
  }

  /** The whole condition for a green run. */
  ghost predicate Green(k: Suite, d: Disk, root: seq<Child>) {
    var found := Walk([], root);
    && found.Ok? && Faultless(CheckerOf(k, root), found.value.entries)
    && Passes(k, d, ManifestsOf(found.value.entries))
    && Report(k, root, true).unsignedRecordings == []
  }

  method CheckTree(host: Host, k: Suite, root: seq<Child>, checkChain: bool) returns (v: Verdict, headSkipped: bool)
    ensures checkChain ==> (v.Verified? <==> Green(k, host.Snapshot(), root))
    ensures Earned(k, host.Snapshot(), root, checkChain, v)
    ensures headSkipped <==> checkChain && LogVerdict(k, host.log).Ok? && HeadValue(host.head).Err?
  {
    headSkipped := false;
    var expectedHead := None;
    if checkChain {
      var log := host.VerifyLog(k);
      if log.Err? {
        return LogRejected(log.error), headSkipped;
      }
      var head := host.ReadHead();
      if head.Err? {
        headSkipped := true;
      } else {
        expectedHead := Some(head.value);
        var tip := TipHash(log.value);
        if tip.Some? && head.value != tip.value {
          return HeadDisagrees(head.value, tip.value), headSkipped;
        }
      }
    }
    var result := VerifyRecursive(k, root, checkChain, expectedHead);
    if result.Err? {
      return TreeRejected(result.error), headSkipped;
    }
    if result.value.unsignedRecordings != [] {
      return UnsignedFound(result.value.unsignedRecordings), headSkipped;
    }
    return Verified(result.value), headSkipped;
  }
}
