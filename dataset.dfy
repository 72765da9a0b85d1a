/**
 * The dataset directory on disk: paths as lists of components, Python's
 * decimal `str` of a non-negative int, and a file store that stands for the
 * filesystem under the dataset root.
 */
module DataSet {

  /** A path as the list of its components, the form os.path.join builds it from. */
  type Path = seq<string>

  /** The directory a file is written into. */
  function Parent(p: Path): Path
    requires |p| > 0
  {
    p[..|p| - 1]
  }

  /** Every non-empty leading part of a path, i.e. the directories os.makedirs creates for it. */
  function Prefixes(p: Path): (r: set<Path>)
    ensures forall k :: 0 < k <= |p| ==> p[..k] in r
    ensures forall q :: q in r ==> 0 < |q| <= |p| && q == p[..|q|]
  {
    assert p[..|p|] == p;
    set k | 0 < k <= |p| :: p[..k]
  }

  /** Every prefix of a recorded directory is recorded too. */
  ghost predicate PrefixClosed(dirs: set<Path>) {
    forall p, k :: p in dirs && 0 < k <= |p| ==> p[..k] in dirs
  }

  // ----- Decimal text of a natural number, as Python's str -----

  function Digit(d: nat): (c: char)
    requires d < 10
    ensures '0' <= c <= '9'
  {
    ('0' as int + d) as char
  }

  predicate IsDigits(s: string) {
    forall i :: 0 <= i < |s| ==> '0' <= s[i] <= '9'
  }

  /** str(n) for n >= 0: decimal digits, no sign. */
  function NatToString(n: nat): (s: string)
    ensures IsDigits(s)
  {
    if n < 10 then [Digit(n)] else NatToString(n / 10) + [Digit(n % 10)]
  }

  /** str(n) is never empty and has no leading zero: it starts with '0' only for n == 0, and is then "0". */
  lemma {:induction false} NatToStringNoLeadingZero(n: nat)
    ensures |NatToString(n)| >= 1
    ensures NatToString(n)[0] == '0' <==> n == 0
    ensures NatToString(n)[0] == '0' ==> |NatToString(n)| == 1
  {
    if n >= 10 {
      NatToStringNoLeadingZero(n / 10);
    }
  }

  /** The value of a string of decimal digits, as int() would read it. */
  function ParseDecimal(s: string): nat
    requires IsDigits(s)
  {
    if s == [] then 0
    else 10 * ParseDecimal(s[..|s| - 1]) + (s[|s| - 1] as int - '0' as int)
  }

  lemma {:induction false} ParseNatToString(n: nat)
    ensures ParseDecimal(NatToString(n)) == n
  {
    if n >= 10 {
      var s := NatToString(n);
      assert s[..|s| - 1] == NatToString(n / 10);
      ParseNatToString(n / 10);
    }
  }

  /** Distinct numbers have distinct decimal names. */
  lemma {:induction false} NatToStringInjective(a: nat, b: nat)
    ensures NatToString(a) == NatToString(b) <==> a == b
  {
    ParseNatToString(a);
    ParseNatToString(b);
  }

  // ----- The filesystem under the dataset root -----

  /** What os.makedirs reports: success, or the error the caller swallows. */
  datatype MakeDirsOutcome = Created | AlreadyExists | Refused

  /** Some leading part of p is missing and is one the system refuses to create. */
  predicate Blocked(p: Path, dirs: set<Path>, forbidden: set<Path>) {
    exists k :: 0 < k <= |p| && p[..k] !in dirs && p[..k] in forbidden
  }

  /**
   * The leading parts of p that exist once os.makedirs(p) has run: it creates
   * the missing ones from the top down and stops at the first it cannot create.
   */
  function Reached(p: Path, dirs: set<Path>, forbidden: set<Path>): set<Path> {
    set q | q in Prefixes(p) && !Blocked(q, dirs, forbidden)
  }

  /** A path whose leading part is blocked is blocked itself. */
  lemma BlockedExtends(p: Path, j: nat, dirs: set<Path>, forbidden: set<Path>)
    requires 0 < j <= |p| && Blocked(p[..j], dirs, forbidden)
    ensures Blocked(p, dirs, forbidden)
  {
    var k :| 0 < k <= j && p[..j][..k] !in dirs && p[..j][..k] in forbidden;
    assert p[..j][..k] == p[..k];
  }

  /**
   * os.makedirs(p) reaches p exactly when nothing above it is refused; what it
   * reaches is prefix-closed; and it never creates a refused directory.
   */
  lemma {:induction false} ReachedProperties(p: Path, dirs: set<Path>, forbidden: set<Path>)
    requires p != []
    ensures p in Reached(p, dirs, forbidden) <==> !Blocked(p, dirs, forbidden)
    ensures forall q, k :: q in Reached(p, dirs, forbidden) && 0 < k <= |q| ==> q[..k] in Reached(p, dirs, forbidden)
    ensures forall q :: q in Reached(p, dirs, forbidden) && q in forbidden ==> q in dirs
  {
    var r := Reached(p, dirs, forbidden);
    assert p[..|p|] == p;
    forall q, k | q in r && 0 < k <= |q| ensures q[..k] in r {
      assert q[..k] == p[..k];
      if Blocked(q[..k], dirs, forbidden) {
        BlockedExtends(q, k, dirs, forbidden);
      }
    }
    forall q | q in r && q in forbidden ensures q in dirs {
      assert q[..|q|] == q;
    }
  }

  /** Only the refused directories that exist matter to os.makedirs. */
  lemma {:induction false} ReachedSame(p: Path, d1: set<Path>, d2: set<Path>, forbidden: set<Path>)
    requires forall q :: q in forbidden ==> (q in d1 <==> q in d2)
    ensures Reached(p, d1, forbidden) == Reached(p, d2, forbidden)
  {
    forall q | q in Prefixes(p) ensures Blocked(q, d1, forbidden) == Blocked(q, d2, forbidden) {
      if Blocked(q, d1, forbidden) {
        var k :| 0 < k <= |q| && q[..k] !in d1 && q[..k] in forbidden;
        assert q[..k] !in d2;
      }
      if Blocked(q, d2, forbidden) {
        var k :| 0 < k <= |q| && q[..k] !in d2 && q[..k] in forbidden;
        assert q[..k] !in d1;
      }
    }
  }

  /**
   * The directories and saved vectors under the dataset root. `forbidden`
   * lists the directories the operating system refuses to create, at any
   * level (the root, a word, a sequence); `writes`
   * records every path a vector was saved to, in order.
   */
  class FileStore {
    var dirs: set<Path>
    var files: map<Path, seq<real>>
    const forbidden: set<Path>
    ghost var writes: seq<Path>

    ghost predicate Valid()
      reads this
    {
      PrefixClosed(dirs)
    }

    constructor (existing: set<Path>, forbidden: set<Path>)
      requires PrefixClosed(existing)
      ensures Valid()
      ensures dirs == existing && files == map[] && writes == []
      ensures this.forbidden == forbidden
    {
      dirs := existing;
      files := map[];
      this.forbidden := forbidden;
      writes := [];
    }

    /**
     * os.makedirs: an existing directory raises FileExistsError; otherwise the
     * missing leading parts are created from the top down, and the call fails
     * at the first refused one, keeping the parents created before it.
     */
    method MakeDirs(p: Path) returns (r: MakeDirsOutcome)
      requires Valid() && p != []
      modifies this`dirs
      ensures Valid()
      ensures r == (if p in old(dirs) then AlreadyExists
                    else if Blocked(p, old(dirs), forbidden) then Refused
                    else Created)
      ensures dirs == old(dirs) + Reached(p, old(dirs), forbidden)
      ensures forall q :: q in forbidden ==> (q in dirs <==> q in old(dirs))
    {
      if p in dirs {
        r := AlreadyExists;
      } else if Blocked(p, dirs, forbidden) {
        r := Refused;
      } else {
        r := Created;
      }
      ReachedProperties(p, dirs, forbidden);
      dirs := dirs + Reached(p, dirs, forbidden);
    }

    /** np.save: writes the vector when its directory exists; otherwise the open fails. */
    method Save(p: Path, v: seq<real>) returns (ok: bool)
      requires p != []
      modifies this`files, this`writes
      ensures ok <==> Parent(p) in dirs
      ensures files == if ok then old(files)[p := v] else old(files)
      ensures writes == if ok then old(writes) + [p] else old(writes)
    {
      ok := Parent(p) in dirs;
      if ok {
        files := files[p := v];
        writes := writes + [p];
      }
    }
  }
}
