/**
 * The path value types of the metadb interface (compat/sdk_implementations/metadb_handle_interface.h):
 * location_t, a file path with a null-tolerant constructor, validity checks and comparisons,
 * and playable_location, a location with a subsong index. A char pointer that may be null is an
 * Option<string>.
 */
module Locations {
  import opened Wrappers
  import opened Ints

  /** Paths of this length or more are not valid locations. */
  const MaxPath := 4096

  /** The path a char pointer denotes: the empty path for null. */
  function PathOf(p: Option<string>): (s: string)
    ensures p.None? ==> s == ""
    ensures p.Some? ==> s == p.value
  {
    if p.None? then "" else p.value
  }

  /**
   * std::string's operator<: lexicographic on characters, a proper prefix before the longer
   * string.
   */
  function Less(a: string, b: string): bool {
    if b == [] then false
    else if a == [] then true
    else if a[0] != b[0] then a[0] < b[0]
    else Less(a[1..], b[1..])
  }

  /** No path comes before itself. */
  lemma {:induction false} LessIrreflexive(a: string)
    ensures !Less(a, a)
  {
    if a != [] {
      LessIrreflexive(a[1..]);
    }
  }

  /** A proper prefix comes before the longer path. */
  lemma {:induction false} PrefixFirst(a: string, b: string)
    requires |a| < |b| && a == b[..|a|]
    ensures Less(a, b)
  {
    if a != [] {
      assert a[1..] == b[1..][..|a| - 1];
      PrefixFirst(a[1..], b[1..]);
    }
  }

  /** Less is transitive. */
  lemma {:induction false} LessTransitive(a: string, b: string, c: string)
    requires Less(a, b) && Less(b, c)
    ensures Less(a, c)
  {
    if a != [] && b != [] && c != [] && a[0] == b[0] && b[0] == c[0] {
      LessTransitive(a[1..], b[1..], c[1..]);
    }
  }

  /** Less is total: of two different paths exactly one comes first. */
  lemma {:induction false} LessTotal(a: string, b: string)
    ensures a != b <==> Less(a, b) || Less(b, a)
    ensures !(Less(a, b) && Less(b, a))
  {
    if a != [] && b != [] && a[0] == b[0] {
      LessTotal(a[1..], b[1..]);
      assert a == [a[0]] + a[1..] && b == [b[0]] + b[1..];
    }
  }

  class Location {
    var path: string

    /** Construction from a char pointer: null gives the empty path. */
    constructor FromChars(p: Option<string>)
      ensures path == PathOf(p)
    {
      path := PathOf(p);
    }

    /** Construction from a std::string, and the default constructor with "". */
    constructor FromString(s: string)
      ensures path == s
    {
      path := s;
    }

    function GetPath(): (r: string)
      reads this
    {
      path
    }

    predicate IsEmpty()
      reads this
      ensures IsEmpty() <==> |path| == 0
    {
      path == ""
    }

    predicate IsValid()
      reads this
      ensures IsValid() <==> 0 < |path| < MaxPath
    {
      !IsEmpty() && |path| < MaxPath
    }

    /** set_path from a char pointer (null clears the path) or from a std::string (Some). */
    method SetPath(p: Option<string>)
      modifies this
      ensures GetPath() == PathOf(p)
    {
      path := PathOf(p);
    }

    /**
     * substring(start): the path from position start on; None where substr throws
     * std::out_of_range, for a start past the end.
     */
    function Substring(start: nat): (r: Option<string>)
      reads this
      ensures r.None? <==> start > |path|
      ensures r.Some? ==> |r.value| == |path| - start && path == path[..start] + r.value
    {
      if start > |path| then None else Some(path[start..])
    }

    /** == compares paths; it holds exactly when neither location orders before the other. */
    predicate Equals(other: Location)
      reads this, other
      ensures Equals(other) <==> !LessThan(other) && !other.LessThan(this)
    {
      LessTotal(path, other.path);
      path == other.path
    }

    predicate NotEquals(other: Location)
      reads this, other
      ensures NotEquals(other) <==> !Equals(other)
    {
      path != other.path
    }

    predicate LessThan(other: Location)
      reads this, other
    {
      Less(path, other.path)
    }
  }

  class PlayableLocation {
    /** The location_t base. */
    const location: Location
    var subsong: u64

    /** Construction from a char pointer and an optional subsong (0 when omitted). */
    constructor FromChars(p: Option<string>, subsong: u64)
      ensures fresh(location) && location.path == PathOf(p) && this.subsong == subsong
    {
      location := new Location.FromChars(p);
      this.subsong := subsong;
    }

    /** Construction from a copy of a location and an optional subsong. */
    constructor FromLocation(loc: Location, subsong: u64)
      ensures fresh(location) && location.path == loc.path && this.subsong == subsong
    {
      location := new Location.FromString(loc.path);
      this.subsong := subsong;
    }

    /** The default constructor: empty path, subsong 0. */
    constructor ()
      ensures fresh(location) && location.path == "" && subsong == 0
    {
      location := new Location.FromString("");
      subsong := 0;
    }

    function GetSubsong(): (r: u64)
      reads this
    {
      subsong
    }

    method SetSubsong(idx: u64)
      modifies this
      ensures GetSubsong() == idx
    {
      subsong := idx;
    }
  }
}
