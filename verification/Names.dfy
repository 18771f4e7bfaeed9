/** File names as clients send them, and the paths the storage layer derives from them (POSIX paths). */
module Names {
  const PART := ".part"

  function Slashed(name: string): (r: string)
    ensures |r| == |name|
    ensures forall i | 0 <= i < |r| :: r[i] == if name[i] == '\\' then '/' else name[i]
  {
    seq(|name|, i requires 0 <= i < |name| => if name[i] == '\\' then '/' else name[i])
  }

  function TrimSlashes(p: string): (r: string) {
    if p != "" && p[|p| - 1] == '/' then TrimSlashes(p[..|p| - 1]) else p
  }

  function LastSegment(p: string): (r: string) {
    if p == "" || p[|p| - 1] == '/' then "" else LastSegment(p[..|p| - 1]) + [p[|p| - 1]]
  }

  /** `Storage.safeName`: backslashes become slashes, then `path.basename`. */
  function SafeName(name: string): (r: string) {
    LastSegment(TrimSlashes(Slashed(name)))
  }

  predicate Plain(name: string) {
    '/' !in name && '\\' !in name
  }

  lemma {:induction false} LastSegmentSplits(p: string) returns (dir: string)
    ensures p == dir + LastSegment(p)
    ensures dir == "" || dir[|dir| - 1] == '/'
    ensures '/' !in LastSegment(p)
    ensures p != "" && p[|p| - 1] != '/' ==> LastSegment(p) != ""
    ensures '/' !in p ==> dir == ""
  {
    if p == "" || p[|p| - 1] == '/' {
      dir := p;
      assert p == p + "";
    } else {
      dir := LastSegmentSplits(p[..|p| - 1]);
      assert p == p[..|p| - 1] + [p[|p| - 1]];
    }
  }

  lemma {:induction false} TrimSlashesSplits(p: string) returns (tail: string)
    ensures p == TrimSlashes(p) + tail
    ensures forall c | c in tail :: c == '/'
    ensures TrimSlashes(p) == "" || TrimSlashes(p)[|TrimSlashes(p)| - 1] != '/'
  {
    if p != "" && p[|p| - 1] == '/' {
      tail := TrimSlashesSplits(p[..|p| - 1]);
      assert p == p[..|p| - 1] + "/";
      tail := tail + "/";
    } else {
      tail := "";
      assert p == p + "";
    }
  }

  /**
   The safe name is the last non-empty segment of the path: what precedes it is empty or ends in a
   separator, what follows is separators only, and it is empty only when there is no such segment.
   */
  lemma {:induction false} SafeNameIsLastSegment(name: string) returns (dir: string, tail: string)
    ensures Slashed(name) == dir + SafeName(name) + tail
    ensures dir == "" || dir[|dir| - 1] == '/'
    ensures forall c | c in tail :: c == '/'
    ensures Plain(SafeName(name))
    ensures SafeName(name) == "" ==> dir == ""
    ensures Plain(name) ==> SafeName(name) == name
  {
    var p := Slashed(name);
    tail := TrimSlashesSplits(p);
    dir := LastSegmentSplits(TrimSlashes(p));
    assert forall c | c in SafeName(name) :: c in p;
    if Plain(name) {
      assert p == name;
      assert TrimSlashes(p) == p;
      assert p == "" + SafeName(name);
    }
  }

  lemma {:induction false} SafeNameIdempotent(name: string)
    ensures SafeName(SafeName(name)) == SafeName(name)
  {
    var _, _ := SafeNameIsLastSegment(name);
    var _, _ := SafeNameIsLastSegment(SafeName(name));
  }

  /** The storage folder inside the project folder; `base` is "" when that is the root of the disk. */
  function Root(base: string): (r: string) {
    base + "/storage"
  }

  /** `path.join(root, segment)` for a segment without separators. */
  function Join(base: string, segment: string): (r: string) {
    if segment == "" || segment == "." then Root(base)
    else if segment == ".." then (if base == "" then "/" else base)
    else Root(base) + "/" + segment
  }

  function FinalPath(base: string, name: string): (r: string) {
    Join(base, SafeName(name))
  }

  function PartPath(base: string, name: string): (r: string) {
    FinalPath(base, name) + PART
  }

  /** Names that denote the folder itself rather than a file in it. */
  predicate Nameless(name: string) {
    SafeName(name) == "" || SafeName(name) == "."
  }

  lemma {:induction false} SameTail(a: string, b: string, t: string)
    requires a + t == b + t
    ensures a == b
  {
    assert |a| == |b|;
    assert a == (a + t)[..|a|];
    assert b == (b + t)[..|a|];
  }

  lemma {:induction false} SameHead(h: string, a: string, b: string)
    requires h + a == h + b
    ensures a == b
  {
    assert a == (h + a)[|h|..];
    assert b == (h + b)[|h|..];
  }

  /** Distinct segments are distinct files, except that "" and "." both denote the folder. */
  lemma {:induction false} JoinInjective(base: string, a: string, b: string)
    ensures Join(base, a) == Join(base, b) <==> a == b || (a in ["", "."] && b in ["", "."])
  {
    var root := Root(base);
    assert |root| == |base| + 8;
    if Join(base, a) == Join(base, b) {
      if a !in ["", ".", ".."] && b !in ["", ".", ".."] {
        SameHead(root + "/", a, b);
      } else {
        assert |Join(base, a)| == |Join(base, b)|;
      }
    }
  }

  /**
   Two requests queue on the same lock key exactly when they write the same part file, except that the
   two ways of naming the folder itself share a part path under different keys.
   */
  lemma {:induction false} SameKeyIffSamePart(base: string, a: string, b: string)
    ensures PartPath(base, a) == PartPath(base, b)
            <==> SafeName(a) == SafeName(b) || (Nameless(a) && Nameless(b))
  {
    JoinInjective(base, SafeName(a), SafeName(b));
    if PartPath(base, a) == PartPath(base, b) {
      SameTail(FinalPath(base, a), FinalPath(base, b), PART);
    }
  }

  /** A part file is some complete file exactly when that file's own name is the upload's plus ".part". */
  lemma {:induction false} PartIsFinalIff(base: string, a: string, b: string)
    ensures PartPath(base, a) == FinalPath(base, b)
            <==> SafeName(b) == SafeName(a) + PART && !Nameless(a) && SafeName(a) != ".."
  {
    var root, x, y := Root(base), SafeName(a), SafeName(b);
    var part, final := Join(base, x) + PART, Join(base, y);
    assert |root| == |base| + 8;
    if x in ["", ".", ".."] {
      FolderPartIsNoFile(base, x, y);
    } else {
      assert part == root + "/" + (x + PART);
      if y !in ["", ".", ".."] {
        if part == final {
          SameHead(root + "/", x + PART, y);
        }
      } else {
        assert |part| > |root| >= |final|;
        assert |x + PART| > 2;
      }
    }
  }

  lemma {:induction false} FolderPartIsNoFile(base: string, x: string, y: string)
    requires x in ["", ".", ".."]
    ensures Join(base, x) + PART != Join(base, y)
  {
    var root := Root(base);
    var part, final := Join(base, x) + PART, Join(base, y);
    assert |root| == |base| + 8;
    if x == ".." && base == "" {
      assert part[1] == '.';
      assert |final| > 1 ==> final[1] == 's';
    } else if x == ".." {
      assert part[|base|] == '.';
      assert |final| > |base| ==> final[|base|] == '/';
    } else {
      assert part[|root|] == '.';
      assert |final| > |root| ==> final[|root|] == '/';
    }
  }

  /** A client cannot reach outside the storage folder, except that ".." names the folder above it. */
  lemma {:induction false} StaysInFolderIff(base: string, name: string)
    ensures Root(base) + "/" <= FinalPath(base, name) <==> SafeName(name) !in ["", ".", ".."]
    ensures SafeName(name) !in ["", ".", ".."] ==> FinalPath(base, name)[|Root(base)| + 1..] == SafeName(name)
  {
    var root := Root(base);
    assert |root| == |base| + 8;
    if SafeName(name) !in ["", ".", ".."] {
      assert FinalPath(base, name) == root + "/" + SafeName(name);
    } else {
      assert |FinalPath(base, name)| <= |root|;
    }
  }
}
