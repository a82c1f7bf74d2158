/**
 * The two POSIX path functions the engines use: `os.path.split` (split at the
 * last '/') and `os.path.splitext` (split at the last '.' of the last
 * component, where leading dots do not start an extension).
 */
module PyPath {
  import opened PyStr

  /** `s.rfind(c)`: the last position of `c` in `s`, or -1 when there is none. */
  function RFind(s: string, c: char): (r: int)
    ensures -1 <= r < |s|
    ensures r >= 0 ==> s[r] == c
    ensures forall j :: r < j < |s| ==> s[j] != c
  {
    if s == [] then -1
    else if s[|s| - 1] == c then |s| - 1
    else RFind(s[..|s| - 1], c)
  }

  predicate AllSlashes(s: string) {
    forall i :: 0 <= i < |s| ==> s[i] == '/'
  }

  /** `s.rstrip('/')` */
  function RStripSlashes(s: string): (r: string)
    ensures StartsWith(s, r)
    ensures r == [] || r[|r| - 1] != '/'
    ensures AllSlashes(s[|r|..])
  {
    if s != [] && s[|s| - 1] == '/' then
      var r := RStripSlashes(s[..|s| - 1]);
      assert s[|r|..] == s[..|s| - 1][|r|..] + ['/'];
      r
    else s
  }

  /** `os.path.split(p)`: the head is everything up to the last '/', with trailing
      separators removed unless it consists of separators only; the tail is the rest. */
  function PathSplit(p: string): (r: (string, string))
    ensures '/' !in r.1
    ensures r.0 == [] || AllSlashes(r.0) || r.0[|r.0| - 1] != '/'
  {
    var i := RFind(p, '/') + 1;
    var head := p[..i];
    var tail := p[i..];
    assert forall j :: 0 <= j < |tail| ==> tail[j] == p[i + j];
    if head != [] && !AllSlashes(head) then (RStripSlashes(head), tail) else (head, tail)
  }

  /** The character in `p[lo..hi]` that is not a dot, which `splitext` looks for. */
  predicate HasNonDot(p: string, lo: int, hi: int)
    requires 0 <= lo <= hi <= |p|
  {
    exists k :: lo <= k < hi && p[k] != '.'
  }

  /** `os.path.splitext(p)`: split at the last '.' when it lies in the last component
      and some character between the component's start and that dot is not a dot. */
  function SplitExt(p: string): (r: (string, string))
    ensures r.0 + r.1 == p
    ensures r.1 == [] || (r.1[0] == '.' && '.' !in r.1[1..] && '/' !in r.1)
  {
    var sep := RFind(p, '/');
    var dot := RFind(p, '.');
    if dot > sep && HasNonDot(p, sep + 1, dot) then
      assert forall j :: 0 <= j < |p[dot..]| ==> p[dot..][j] == p[dot + j];
      (p[..dot], p[dot..])
    else (p, [])
  }

  /** `os.path.splitext(p)[1].lower()`, the test both engines apply to a file. */
  function LowerExt(p: string): string {
    Lower(SplitExt(p).1)
  }

  /** A file tests as `.jpg` exactly when its extension spells ".jpg" in any mix of cases. */
  lemma LowerExtIsJpg(p: string)
    ensures var e := SplitExt(p).1;
            LowerExt(p) == ".jpg" <==>
            |e| == 4 && e[0] == '.' && e[1] in "jJ" && e[2] in "pP" && e[3] in "gG"
  {
    var e := SplitExt(p).1;
    var l := Lower(e);
    if |e| == 4 {
      assert l == [l[0], l[1], l[2], l[3]];
      assert ".jpg" == ['.', 'j', 'p', 'g'];
    }
  }

  /** Lower-casing an extension keeps its shape: lower-casing leaves '.' and '/' alone and makes neither. */
  lemma LowerExtShape(e: string)
    requires e == [] || (e[0] == '.' && '.' !in e[1..] && '/' !in e)
    ensures var l := Lower(e);
            l == [] || (l[0] == '.' && '.' !in l[1..] && '/' !in l)
  {
    var l := Lower(e);
    forall i | 0 <= i < |l| ensures (l[i] == '.' <==> e[i] == '.') && (l[i] == '/' <==> e[i] == '/') {
      assert l[i] == LowerChar(e[i]);
    }
    if e != [] {
      forall i | 0 <= i < |l[1..]| ensures l[1..][i] != '.' {
        assert l[1..][i] == l[i + 1] && e[1..][i] == e[i + 1];
      }
    }
  }

  /** Joining a directory that does not end in '/' and a name with one '/' splits back into the two. */
  lemma PathSplitJoin(dir: string, name: string)
    requires dir != [] && dir[|dir| - 1] != '/'
    requires '/' !in name
    ensures PathSplit(dir + "/" + name) == (dir, name)
  {
    var p := dir + "/" + name;
    assert p[|dir|] == '/';
    assert forall j :: |dir| < j < |p| ==> p[j] == name[j - |dir| - 1];
    var i := RFind(p, '/') + 1;
    assert i == |dir| + 1;
    assert p[..i] == dir + "/";
    assert p[i..] == name;
    assert !AllSlashes(dir + "/") by {
      assert (dir + "/")[|dir| - 1] == dir[|dir| - 1];
    }
    assert (dir + "/")[..|dir|] == dir;
  }

  /** Once the last component starts with a dot-free stretch `t`, the root that `splitext` returns still starts with `t`. */
  lemma SplitExtKeepsLead(p: string, t: string)
    requires StartsWith(p, t)
    requires '.' !in t
    ensures StartsWith(SplitExt(p).0, t)
  {
    var sep := RFind(p, '/');
    var dot := RFind(p, '.');
    if dot > sep && HasNonDot(p, sep + 1, dot) {
      assert p[..dot][..|t|] == p[..|t|];
    }
  }

  /** A name `q + e` with a proper extension `e` and a first character that is not a dot splits into `q` and `e`. */
  lemma SplitExtKnown(q: string, e: string)
    requires q != [] && q[0] != '.' && '/' !in q
    requires e != [] && e[0] == '.' && '.' !in e[1..] && '/' !in e
    ensures SplitExt(q + e) == (q, e)
  {
    var p := q + e;
    assert forall j :: |q| < j < |p| ==> p[j] == e[1..][j - |q| - 1];
    assert p[|q|] == '.';
    assert RFind(p, '.') == |q|;
    assert forall j :: 0 <= j < |p| ==> p[j] != '/' by {
      forall j | 0 <= j < |p| ensures p[j] != '/' {
        if j < |q| { assert p[j] == q[j]; } else { assert p[j] == e[j - |q|]; }
      }
    }
    assert RFind(p, '/') == -1;
    assert HasNonDot(p, 0, |q|) by { assert p[0] == q[0]; }
    assert p[..|q|] == q && p[|q|..] == e;
  }
}
