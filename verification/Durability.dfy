/** Atomic durable writes as a process sees them. */
module Durability {
  /** A write may be lost or may land, and the caller may survive, see an error or die. */
  datatype Write = Written | RaisedBefore | RaisedAfter | KilledBefore | KilledAfter
  {
    predicate Lands(): (lands: bool)
      ensures lands <==> this != RaisedBefore && this != KilledBefore
    {
      Written? || RaisedAfter? || KilledAfter?
    }

    predicate Kills() { KilledBefore? || KilledAfter? }
  }
}
