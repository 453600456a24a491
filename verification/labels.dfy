/** The tag -> label rule shared by the metric and host-metadata builders of
    plugins/elasticsearch/utils.go: `strings.Split(tag, ":")`, token 0 is the
    key, token 1 the value ("" when there is no colon), and a later tag with
    the same key overwrites an earlier one. */
module Labels {

  /** `strings.Join(toks, ":")`. */
  function Join(toks: seq<string>): string {
    if |toks| == 0 then ""
    else if |toks| == 1 then toks[0]
    else toks[0] + ":" + Join(toks[1..])
  }

  /** `strings.Split(s, ":")`: the maximal colon-free pieces between colons;
      never empty, and joining them back gives `s`. */
  function Split(s: string): (toks: seq<string>)
    ensures |toks| >= 1
    ensures forall i :: 0 <= i < |toks| ==> ':' !in toks[i]
    ensures Join(toks) == s
  {
    if |s| == 0 then [""]
    else if s[0] == ':' then
      var rest := Split(s[1..]);
      assert s == [':'] + s[1..];
      [""] + rest
    else
      var rest := Split(s[1..]);
      var toks := [[s[0]] + rest[0]] + rest[1..];
      assert toks[1..] == rest[1..];
      assert s == [s[0]] + s[1..];
      toks
  }

  /** Splitting a join of colon-free pieces gives the pieces back. */
  lemma {:induction false} SplitJoin(toks: seq<string>)
    requires |toks| >= 1
    requires forall i :: 0 <= i < |toks| ==> ':' !in toks[i]
    ensures Split(Join(toks)) == toks
    decreases |toks|, |toks[0]|
  {
    if |toks[0]| > 0 {
      var c := toks[0][0];
      var t' := [toks[0][1..]] + toks[1..];
      assert forall i :: 0 <= i < |t'| ==> ':' !in t'[i] by {
        forall i | 0 <= i < |t'| ensures ':' !in t'[i] {
          if i == 0 {
            assert forall k :: 0 <= k < |toks[0][1..]| ==> toks[0][1..][k] == toks[0][k + 1];
          } else {
            assert t'[i] == toks[i];
          }
        }
      }
      SplitJoin(t');
      assert c != ':' by {
        assert toks[0][0] in toks[0];
      }
      JoinFirstChar(toks);
      SplitChar(c, Join(t'));
      assert t'[0] == toks[0][1..] && t'[1..] == toks[1..];
      assert [c] + t'[0] == toks[0];
      assert [[c] + t'[0]] + t'[1..] == toks;
    } else if |toks| > 1 {
      var t' := toks[1..];
      SplitJoin(t');
      assert Join(toks) == ":" + Join(t');
      SplitColon(Join(t'));
      assert [""] + t' == toks;
    }
  }

  /** Joining pieces whose first is non-empty starts with that piece's first
      character. */
  lemma JoinFirstChar(toks: seq<string>)
    requires |toks| >= 1 && |toks[0]| > 0
    ensures Join(toks) == [toks[0][0]] + Join([toks[0][1..]] + toks[1..])
  {
    var t' := [toks[0][1..]] + toks[1..];
    assert t'[1..] == toks[1..];
    assert toks[0] == [toks[0][0]] + toks[0][1..];
  }

  /** A leading colon starts a new, empty piece. */
  lemma SplitColon(x: string)
    ensures Split(":" + x) == [""] + Split(x)
  {
    assert (":" + x)[1..] == x;
  }

  /** A leading character other than a colon joins the first piece. */
  lemma SplitChar(c: char, x: string)
    requires c != ':'
    ensures Split([c] + x) == [[c] + Split(x)[0]] + Split(x)[1..]
  {
    assert ([c] + x)[1..] == x;
  }

  /** One tag as a (key, value) pair. */
  function TagLabel(tag: string): (kv: (string, string))
    ensures ':' !in kv.0 && ':' !in kv.1
    ensures ':' !in tag ==> kv == (tag, "")
    ensures ':' in tag ==> kv.0 + ":" + kv.1 <= tag && Boundary(tag, |kv.0| + 1 + |kv.1|)
  {
    var toks := Split(tag);
    var toks' := if |toks| < 2 then toks + [""] else toks;
    if |toks| < 2 then
      assert tag == toks[0];
      (toks'[0], toks'[1])
    else
      assert toks[0] + ":" + toks[1] <= tag && Boundary(tag, |toks[0]| + 1 + |toks[1]|) by {
        JoinPrefix(toks);
      }
      (toks'[0], toks'[1])
  }

  /** Position `n` of `s` is its end or a colon. */
  predicate Boundary(s: string, n: int) {
    n == |s| || (0 <= n < |s| && s[n] == ':')
  }

  /** The first two pieces of a join, with the colon between them, start it
      and end at its end or at the next colon. */
  lemma JoinPrefix(toks: seq<string>)
    requires |toks| >= 2
    ensures toks[0] + ":" + toks[1] <= Join(toks)
    ensures Boundary(Join(toks), |toks[0]| + 1 + |toks[1]|)
  {
    var rest := toks[1..];
    assert Join(toks) == toks[0] + ":" + Join(rest);
    if |rest| == 1 {
      assert Join(rest) == toks[1];
    } else {
      assert Join(rest) == toks[1] + ":" + Join(rest[1..]);
      assert Join(toks) == (toks[0] + ":" + toks[1]) + ":" + Join(rest[1..]);
    }
  }

  /** The contract of `TagLabel` pins the pair down: a colon-free key and
      value that, joined by a colon, start the tag and end at its end or at
      a colon are the pair `TagLabel` returns. */
  lemma TagLabelUnique(tag: string, k: string, v: string)
    requires ':' in tag && ':' !in k && ':' !in v
    requires k + ":" + v <= tag && Boundary(tag, |k| + 1 + |v|)
    ensures TagLabel(tag) == (k, v)
  {
    var kv := TagLabel(tag);
    ColonFreePrefix(tag, 0, k, kv.0);
    assert k == kv.0 by {
      assert k == tag[..|k|] && kv.0 == tag[..|kv.0|];
    }
    ColonFreePrefix(tag, |k| + 1, v, kv.1);
    assert v == tag[|k| + 1..|k| + 1 + |v|];
    assert kv.1 == tag[|k| + 1..|k| + 1 + |kv.1|];
  }

  /** Two colon-free pieces starting at position `i` of `s` and each
      followed by the end of `s` or a colon have the same length. */
  lemma ColonFreePrefix(s: string, i: int, a: string, b: string)
    requires 0 <= i && ':' !in a && ':' !in b
    requires i + |a| <= |s| && s[i..i + |a|] == a && Boundary(s, i + |a|)
    requires i + |b| <= |s| && s[i..i + |b|] == b && Boundary(s, i + |b|)
    ensures |a| == |b|
  {
  }

  /** The label map of a tag list, built in tag order. Its keys are exactly
      the keys of the tags. */
  function LabelsOf(tags: seq<string>): (r: map<string, string>)
    ensures forall k :: k in r <==> exists i :: 0 <= i < |tags| && TagLabel(tags[i]).0 == k
    decreases |tags|
  {
    if |tags| == 0 then map[]
    else
      var init := tags[..|tags| - 1];
      var kv := TagLabel(tags[|tags| - 1]);
      assert forall i :: 0 <= i < |init| ==> init[i] == tags[i];
      LabelsOf(init)[kv.0 := kv.1]
  }

  /** Each key holds the value of the last tag with that key. */
  lemma {:induction false} LabelsLastWins(tags: seq<string>, i: int)
    requires 0 <= i < |tags| && LastWithKey(tags, i)
    ensures TagLabel(tags[i]).0 in LabelsOf(tags)
    ensures LabelsOf(tags)[TagLabel(tags[i]).0] == TagLabel(tags[i]).1
    decreases |tags|
  {
    if i < |tags| - 1 {
      var init := tags[..|tags| - 1];
      assert forall j :: 0 <= j < |init| ==> init[j] == tags[j];
      assert LastWithKey(init, i);
      LabelsLastWins(init, i);
      assert TagLabel(tags[|tags| - 1]).0 != TagLabel(tags[i]).0;
    }
  }

  /** No later tag has the same key as tag `i`. */
  predicate LastWithKey(tags: seq<string>, i: int)
    requires 0 <= i < |tags|
  {
    forall j :: i < j < |tags| ==> TagLabel(tags[j]).0 != TagLabel(tags[i]).0
  }

  /** "a:b:c" gives a -> "b": tokens after the second are dropped. */
  lemma ThreePartTag()
    ensures TagLabel("a:b:c") == ("a", "b")
  {
    var toks := ["a", "b", "c"];
    assert Join(toks) == "a:b:c" by {
      assert Join(toks[1..]) == "b:c" by {
        assert toks[1..][1..] == ["c"];
      }
    }
    assert forall i :: 0 <= i < |toks| ==> ':' !in toks[i];
    SplitJoin(toks);
  }
}
