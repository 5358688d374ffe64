/** Shared value types: optional values, results of database and file calls, and bytes. */
module Wrappers {

  datatype Option<+T> = None | Some(value: T)

  /** The error returns of the store and of the file storage. */
  datatype Error =
    | NoRows              // sql.ErrNoRows, also produced when an update touches no row
    | NoAssociations      // a bulk replacement found nothing to replace
    | UniqueFailed        // a UNIQUE constraint
    | ForeignKeyFailed    // a REFERENCES constraint
    | NothingSelected     // a batch update of no subscription
    | AffectedMismatch    // a batch update touched an unexpected number of rows
    | DigestMismatch      // a stored row contradicts the digests of an upload
    | StillAssociated     // a file that a subscription still uses
    | EmptyUpload
    | UploadTooLarge
    | Fault               // the database or the file system failed
    | Crashed             // the process stopped before answering

  datatype Result<+T> = Ok(value: T) | Err(error: Error)

  type byte = b: int | 0 <= b < 256
  type Bytes = seq<byte>

  predicate NoDuplicates<T(==)>(s: seq<T>) {
    forall i, j :: 0 <= i < j < |s| ==> s[i] != s[j]
  }

  /** A set without members is the empty set. */
  lemma WithoutMembers(s: set<int>)
    ensures (forall x :: x !in s) ==> s == {}
  {
    if forall x :: x !in s {
      assert s == {};
    }
  }
}

/** The byte order in which SQLite compares TEXT values. */
module TextOrder {

  predicate Less(a: string, b: string) {
    b != [] && (a == [] || a[0] < b[0] || (a[0] == b[0] && Less(a[1..], b[1..])))
  }

  /** Two texts that share a prefix compare as their remainders do. */
  lemma {:induction false} CommonPrefix(p: string, a: string, b: string)
    ensures Less(p + a, p + b) == Less(a, b)
  {
    if p == [] {
      assert p + a == a && p + b == b;
    } else {
      assert (p + a)[1..] == p[1..] + a && (p + b)[1..] == p[1..] + b;
      CommonPrefix(p[1..], a, b);
    }
  }

  /** Exactly one of less, equal and greater holds. */
  lemma {:induction false} Trichotomy(a: string, b: string)
    ensures a == b ==> !Less(a, b)
    ensures Less(a, b) ==> !Less(b, a)
    ensures a != b ==> Less(a, b) || Less(b, a)
  {
    if a != [] && b != [] && a[0] == b[0] {
      Trichotomy(a[1..], b[1..]);
      assert a == [a[0]] + a[1..] && b == [b[0]] + b[1..];
    }
  }

  lemma {:induction false} Transitive(a: string, b: string, c: string)
    requires Less(a, b) && Less(b, c)
    ensures Less(a, c)
  {
    if a != [] && a[0] == b[0] && b[0] == c[0] {
      Transitive(a[1..], b[1..], c[1..]);
    }
  }
}
