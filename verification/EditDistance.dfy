/**
 The edit distance used to rank project names: the two-row loop computes the cost
 of a cheapest edit script, and that cost is a metric.
 */
module EditDistance {
  import opened Wrappers

  /** One position of an alignment: the character read and the character written there, if any.
      Reading without writing deletes, writing without reading inserts. */
  datatype Edit = Edit(read: Option<char>, write: Option<char>)

  type Script = seq<Edit>

  function Chars(c: Option<char>): string {
    match c
    case None => []
    case Some(x) => [x]
  }

  /** The text a script reads. */
  function Source(s: Script): string {
    if s == [] then [] else Source(s[..|s| - 1]) + Chars(s[|s| - 1].read)
  }

  /** The text a script writes. */
  function Target(s: Script): string {
    if s == [] then [] else Target(s[..|s| - 1]) + Chars(s[|s| - 1].write)
  }

  /** Copying is free; a replacement, a deletion or an insertion costs one. */
  function EditCost(e: Edit): nat {
    if e.read == e.write then 0 else 1
  }

  function Cost(s: Script): nat {
    if s == [] then 0 else Cost(s[..|s| - 1]) + EditCost(s[|s| - 1])
  }

  predicate Turns(s: Script, a: string, b: string) {
    Source(s) == a && Target(s) == b
  }

  /** `d` is the least number of replacements, insertions and deletions that turn `a` into `b`. */
  ghost predicate IsDistance(a: string, b: string, d: nat) {
    && (exists s :: Turns(s, a, b) && Cost(s) == d)
    && (forall s :: Turns(s, a, b) ==> d <= Cost(s))
  }

  function Min3(x: nat, y: nat, z: nat): nat {
    var m := if y < x then y else x;
    if z < m then z else m
  }

  /** The recurrence behind the loop, on prefixes. */
  function Lev(a: string, b: string): nat
    decreases |a| + |b|
  {
    if a == [] then |b|
    else if b == [] then |a|
    else
      var (a', b') := (a[..|a| - 1], b[..|b| - 1]);
      Min3(Lev(a', b) + 1, Lev(a, b') + 1, Lev(a', b') + if a[|a| - 1] == b[|b| - 1] then 0 else 1)
  }

  lemma {:induction false} LevUnfold(a: string, b: string)
    ensures a == [] ==> Lev(a, b) == |b|
    ensures a != [] && b == [] ==> Lev(a, b) == |a|
    ensures a != [] && b != [] ==>
      var (a', b') := (a[..|a| - 1], b[..|b| - 1]);
      Lev(a, b) == Min3(Lev(a', b) + 1, Lev(a, b') + 1, Lev(a', b') + if a[|a| - 1] == b[|b| - 1] then 0 else 1)
  {
  }

  /** The recurrence at one cell of the table. */
  lemma {:induction false} LevCell(a: string, b: string, i: nat, j: nat)
    requires i <= |a| && j <= |b|
    ensures Lev(a[..i], b[..j]) ==
      if i == 0 then j else if j == 0 then i
      else Min3(Lev(a[..i - 1], b[..j]) + 1, Lev(a[..i], b[..j - 1]) + 1,
                Lev(a[..i - 1], b[..j - 1]) + if a[i - 1] == b[j - 1] then 0 else 1)
  {
    hide Lev;
    LevUnfold(a[..i], b[..j]);
    if i > 0 && j > 0 {
      assert a[..i][..i - 1] == a[..i - 1] && b[..j][..j - 1] == b[..j - 1];
    }
  }

  /** The two-row loop. */
  method Levenshtein(a: string, b: string) returns (d: nat)
    ensures IsDistance(a, b, d)
  {
    hide Lev, IsDistance;
    var prev := new nat[|b| + 1](j => j);
    forall j | 0 <= j <= |b|
      ensures Lev(a[..0], b[..j]) == j
    {
      LevCell(a, b, 0, j);
    }
    for i := 1 to |a| + 1
      invariant prev.Length == |b| + 1
      invariant forall j :: 0 <= j <= |b| ==> prev[j] == Lev(a[..i - 1], b[..j])
    {
      var cur := new nat[|b| + 1](_ => i);
      LevCell(a, b, i, 0);
      for j := 1 to |b| + 1
        invariant forall k :: 0 <= k <= |b| ==> prev[k] == Lev(a[..i - 1], b[..k])
        invariant forall k :: 0 <= k < j ==> cur[k] == Lev(a[..i], b[..k])
      {
        LevCell(a, b, i, j);
        var cost := if a[i - 1] == b[j - 1] then 0 else 1;
        cur[j] := Min3(prev[j] + 1, cur[j - 1] + 1, prev[j - 1] + cost);
      }
      prev := cur;
    }
    d := prev[|b|];
    LevIsDistance(a, b);
    assert a[..|a|] == a && b[..|b|] == b;
  }

  // ------------------------------------------------------------ the recurrence is the minimum

  lemma Snoc(s: Script, e: Edit)
    ensures Source(s + [e]) == Source(s) + Chars(e.read)
    ensures Target(s + [e]) == Target(s) + Chars(e.write)
    ensures Cost(s + [e]) == Cost(s) + EditCost(e)
  {
    assert (s + [e])[..|s|] == s;
  }

  lemma {:induction false} LevAchieved(a: string, b: string) returns (s: Script)
    ensures Turns(s, a, b) && Cost(s) == Lev(a, b)
    decreases |a| + |b|
  {
    hide Source, Target, Cost, Lev;
    LevUnfold(a, b);
    assert b != [] ==> b == b[..|b| - 1] + [b[|b| - 1]];
    assert a != [] ==> a == a[..|a| - 1] + [a[|a| - 1]];
    if a == [] && b != [] {
      LevUnfold(a, b[..|b| - 1]);
    }
    if b == [] && a != [] {
      LevUnfold(a[..|a| - 1], b);
    }
    var t, e;
    if a == [] && b == [] {
      EmptyScript();
      return [];
    } else if a == [] || (b != [] && Lev(a, b) == Lev(a, b[..|b| - 1]) + 1) {
      t := LevAchieved(a, b[..|b| - 1]);
      e := Edit(None, Some(b[|b| - 1]));
    } else if b == [] || Lev(a, b) == Lev(a[..|a| - 1], b) + 1 {
      t := LevAchieved(a[..|a| - 1], b);
      e := Edit(Some(a[|a| - 1]), None);
    } else {
      t := LevAchieved(a[..|a| - 1], b[..|b| - 1]);
      e := Edit(Some(a[|a| - 1]), Some(b[|b| - 1]));
    }
    Snoc(t, e);
    s := t + [e];
  }

  lemma EmptyScript()
    ensures Turns([], [], []) && Cost([]) == 0
  {
  }

  lemma {:induction false} LevIsMinimal(s: Script)
    ensures Lev(Source(s), Target(s)) <= Cost(s)
    decreases |s|
  {
    if s != [] {
      var (t, e) := (s[..|s| - 1], s[|s| - 1]);
      LevIsMinimal(t);
      LevGrows(Source(t), Target(t), e);
    }
  }

  /** One more edit cannot raise the distance by more than it costs. */
  lemma LevGrows(a: string, b: string, e: Edit)
    ensures Lev(a + Chars(e.read), b + Chars(e.write)) <= Lev(a, b) + EditCost(e)
  {
    var (p, q) := (a + Chars(e.read), b + Chars(e.write));
    assert e.read.Some? ==> p[..|p| - 1] == a;
    assert e.write.Some? ==> q[..|q| - 1] == b;
    assert e.read == None ==> p == a;
    assert e.write == None ==> q == b;
  }

  lemma LevIsDistance(a: string, b: string)
    ensures IsDistance(a, b, Lev(a, b))
  {
    var s := LevAchieved(a, b);
    forall t | Turns(t, a, b)
      ensures Lev(a, b) <= Cost(t)
    {
      LevIsMinimal(t);
    }
  }

  // ------------------------------------------------------------ scripts can be reversed and composed

  function Inverse(s: Script): Script {
    if s == [] then [] else Inverse(s[..|s| - 1]) + [Edit(s[|s| - 1].write, s[|s| - 1].read)]
  }

  lemma {:induction false} InverseTurnsBack(s: Script)
    ensures Turns(Inverse(s), Target(s), Source(s)) && Cost(Inverse(s)) == Cost(s)
    decreases |s|
  {
    if s != [] {
      InverseTurnsBack(s[..|s| - 1]);
      Snoc(Inverse(s[..|s| - 1]), Edit(s[|s| - 1].write, s[|s| - 1].read));
    }
  }

  /** Two scripts meeting in a middle text combine into one that costs no more than both. */
  lemma {:induction false} Compose(s: Script, t: Script) returns (r: Script)
    requires Target(s) == Source(t)
    ensures Turns(r, Source(s), Target(t)) && Cost(r) <= Cost(s) + Cost(t)
    decreases |s| + |t|
  {
    if t != [] && t[|t| - 1].read == None {
      var q := Compose(s, t[..|t| - 1]);
      Snoc(q, t[|t| - 1]);
      r := q + [t[|t| - 1]];
    } else if s != [] && s[|s| - 1].write == None {
      var q := Compose(s[..|s| - 1], t);
      Snoc(q, s[|s| - 1]);
      r := q + [s[|s| - 1]];
    } else if s == [] || t == [] {
      r := [];
    } else {
      // The last edits write and read the same character of the middle text.
      var (e, f) := (s[|s| - 1], t[|t| - 1]);
      assert Target(s)[..|Target(s)| - 1] == Target(s[..|s| - 1]);
      assert Source(t)[..|Source(t)| - 1] == Source(t[..|t| - 1]);
      assert e.write.value == Target(s)[|Target(s)| - 1] == f.read.value;
      var q := Compose(s[..|s| - 1], t[..|t| - 1]);
      Snoc(q, Edit(e.read, f.write));
      r := q + [Edit(e.read, f.write)];
    }
  }

  // ------------------------------------------------------------ main results

  lemma {:induction false} FreeScriptCopies(s: Script)
    ensures Cost(s) == 0 ==> Source(s) == Target(s)
    decreases |s|
  {
    if s != [] {
      FreeScriptCopies(s[..|s| - 1]);
    }
  }

  lemma {:induction false} DistanceToItself(a: string)
    ensures Lev(a, a) == 0
    decreases |a|
  {
    if a != [] {
      DistanceToItself(a[..|a| - 1]);
    }
  }

  /** The distance is a metric: zero exactly on equal texts, symmetric, and with the triangle inequality. */
  lemma DistanceIsAMetric(a: string, b: string, c: string, ab: nat, ba: nat, bc: nat, ac: nat)
    requires IsDistance(a, b, ab) && IsDistance(b, a, ba) && IsDistance(b, c, bc) && IsDistance(a, c, ac)
    ensures ab == 0 <==> a == b
    ensures ab == ba
    ensures ac <= ab + bc
  {
    var s :| Turns(s, a, b) && Cost(s) == ab;
    var s' :| Turns(s', b, a) && Cost(s') == ba;
    var t :| Turns(t, b, c) && Cost(t) == bc;
    FreeScriptCopies(s);
    if a == b {
      DistanceToItself(a);
      LevIsDistance(a, a);
    }
    InverseTurnsBack(s);
    InverseTurnsBack(s');
    var r := Compose(s, t);
  }
}
