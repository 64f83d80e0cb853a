/** The comma-separated feature-gate list stored under the `feature-gates` key
    of the KubeVirt config map (`cmFeatureGates + "," + fgEnabled` in
    pkg/controller/operands/kubevirt_test.go). `Join` and `Split` follow Go's
    `strings.Join(gates, ",")` and `strings.Split(s, ",")`. */
module GateList {

  type Gate = string

  const Separator: char := ','

  /** strings.Join(gates, ","). */
  function Join(gates: seq<Gate>): (s: string)
    ensures gates == [] ==> s == ""
    ensures |gates| == 1 ==> s == gates[0]
  {
    if gates == [] then ""
    else if |gates| == 1 then gates[0]
    else gates[0] + [Separator] + Join(gates[1..])
  }

  /** strings.Split(s, ","): always at least one part, none holding a separator. */
  function Split(s: string): (parts: seq<Gate>)
    ensures |parts| >= 1
    ensures forall i :: 0 <= i < |parts| ==> Separator !in parts[i]
  {
    if s == [] then [""]
    else
      var rest := Split(s[1..]);
      if s[0] == Separator then [""] + rest
      else [[s[0]] + rest[0]] + rest[1..]
  }

  /** The gate list held by a config-map value; the empty value holds no gate. */
  function Parse(s: string): (gates: seq<Gate>)
    ensures s != "" ==> |gates| >= 1
    ensures forall i :: 0 <= i < |gates| ==> Separator !in gates[i]
  {
    if s == "" then [] else Split(s)
  }

  /** A well-formed gate name: non-empty, without a separator. */
  predicate WellFormed(g: Gate)
  {
    g != "" && Separator !in g
  }

  predicate AllWellFormed(gates: seq<Gate>)
  {
    forall i :: 0 <= i < |gates| ==> WellFormed(gates[i])
  }

  lemma JoinCons(c: char, x: Gate, xs: seq<Gate>)
    ensures Join([[c] + x] + xs) == [c] + Join([x] + xs)
  {
    var l := [[c] + x] + xs;
    assert l[1..] == xs && ([x] + xs)[1..] == xs;
  }

  /** Splitting then joining gives back the stored value, whatever it is. */
  lemma {:induction false} JoinSplit(s: string)
    ensures Join(Split(s)) == s
    decreases |s|
  {
    if s != [] {
      var rest := Split(s[1..]);
      JoinSplit(s[1..]);
      if s[0] == Separator {
        assert ([""] + rest)[1..] == rest;
        assert s == [s[0]] + s[1..];
      } else {
        assert rest == [rest[0]] + rest[1..];
        JoinCons(s[0], rest[0], rest[1..]);
        assert s == [s[0]] + s[1..];
      }
    }
  }

  /** Joining then parsing gives back the value again. */
  lemma JoinParse(s: string)
    ensures Join(Parse(s)) == s
  {
    if s != "" {
      JoinSplit(s);
    }
  }

  /** Splitting a part followed by a separator. */
  lemma {:induction false} SplitPrefix(x: Gate, y: string)
    requires Separator !in x
    ensures Split(x + [Separator] + y) == [x] + Split(y)
    decreases |x|
  {
    var s := x + [Separator] + y;
    if x == [] {
      assert s == [Separator] + y;
      assert s[1..] == y;
    } else {
      assert s[1..] == x[1..] + [Separator] + y;
      SplitPrefix(x[1..], y);
      assert [x[0]] + x[1..] == x;
    }
  }

  lemma {:induction false} SplitNoSeparator(x: Gate)
    requires Separator !in x
    ensures Split(x) == [x]
    decreases |x|
  {
    if x != [] {
      SplitNoSeparator(x[1..]);
      assert [x[0]] + x[1..] == x;
    }
  }

  /** Parsing a joined list of gate names gives back the list. */
  lemma {:induction false} ParseJoin(gates: seq<Gate>)
    requires AllWellFormed(gates)
    ensures Parse(Join(gates)) == gates
    decreases |gates|
  {
    if gates != [] {
      SplitJoin(gates);
      assert gates[0] != "";
      assert |Join(gates)| > 0 by {
        if |gates| > 1 {
          assert Join(gates) == gates[0] + [Separator] + Join(gates[1..]);
        }
      }
    }
  }

  lemma {:induction false} SplitJoin(gates: seq<Gate>)
    requires gates != []
    requires forall i :: 0 <= i < |gates| ==> Separator !in gates[i]
    ensures Split(Join(gates)) == gates
    decreases |gates|
  {
    if |gates| == 1 {
      SplitNoSeparator(gates[0]);
    } else {
      SplitJoin(gates[1..]);
      SplitPrefix(gates[0], Join(gates[1..]));
      assert gates == [gates[0]] + gates[1..];
    }
  }

  /** Parsing a joined list gives it back unless it is the single empty gate,
      which joins to the empty value. */
  lemma ParseJoinAny(gates: seq<Gate>)
    requires forall i :: 0 <= i < |gates| ==> Separator !in gates[i]
    requires gates != [""]
    ensures Parse(Join(gates)) == gates
  {
    if gates != [] {
      SplitJoin(gates);
      if |gates| > 1 {
        assert Join(gates) == gates[0] + [Separator] + Join(gates[1..]);
      } else {
        assert gates == [gates[0]];
      }
    }
  }
}
