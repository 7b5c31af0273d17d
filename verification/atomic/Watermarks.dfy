/** Success watermarks of the FX topics and how an incoming one relates to the stored one (app/atomic_watermark.py). */
module Watermarks {
  import opened Wrappers

  datatype Asset = Usd | Jpy | Eur
  type FxSource = nat
  type Lineage = int

  /** What a publish carries: the revision keys of the sources that are present, those that are missing, and the
      membership contract. */
  datatype Content = Content(vector: map<FxSource, string>, missing: set<FxSource>, membership: nat)

  datatype Watermark = Watermark(asset: Asset, lineage: Lineage, number: nat, content: Content, sentAt: int)

  datatype Relation = NoCurrent | Newer | Older | Same | SameSeqDivergent | LineageMismatch

  /** How `incoming` relates to the stored watermark of the same asset. */
  function Classify(current: Option<Watermark>, incoming: Watermark): Relation {
    match current
    case None => NoCurrent
    case Some(c) =>
      if c.lineage != incoming.lineage then LineageMismatch
      else if incoming.number > c.number then Newer
      else if incoming.number < c.number then Older
      else if c.content == incoming.content then Same
      else SameSeqDivergent
  }

  datatype WriteAction = DoWrite | SkipStale | SkipIdempotent | AlertDivergent | DeferLineage

  function ActionFor(r: Relation): WriteAction {
    match r
    case NoCurrent => DoWrite
    case Newer => DoWrite
    case Older => SkipStale
    case Same => SkipIdempotent
    case SameSeqDivergent => AlertDivergent
    case LineageMismatch => DeferLineage
  }
}
