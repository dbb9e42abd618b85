/**
 * The Markdown code-fence scanner `extract_code`, which both preprocessing scripts define
 * identically: `re.findall` of ```` ```python\n(.*?)\n``` ```` with DOTALL, and, only when that
 * finds nothing, of the bare-fence pattern ```` ```\n(.*?)\n``` ````.
 */
module CodeFences {
  import opened PyStr

  const PythonFence: string := "```python\n"
  const BareFence: string := "```\n"
  const CloseFence: string := "\n```"

  /** The body of one match is `s[start..end]`. */
  datatype Span = Span(start: nat, end: nat)

  /** `b` is a match of `fence (.*?) \n```` whose lazy body stops at the first closing fence. */
  predicate IsMatch(s: string, fence: string, b: Span)
  {
    && |fence| <= b.start <= b.end
    && OccursAt(s, fence, b.start - |fence|)
    && OccursAt(s, CloseFence, b.end)
    && forall e :: b.start <= e < b.end ==> !OccursAt(s, CloseFence, e)
  }

  /** Some opening fence at or after `p` is followed by a closing fence. */
  ghost predicate HasBlockFrom(s: string, fence: string, p: nat)
  {
    exists k, e :: p <= k && OccursAt(s, fence, k) && k + |fence| <= e && OccursAt(s, CloseFence, e)
  }

  /** `re.findall` from position `p`: at each position try the pattern, taking the shortest
      body; after a match continue behind its closing fence, otherwise one character on. */
  function Scan(s: string, fence: string, p: nat): (r: seq<Span>)
    requires |fence| > 0 && p <= |s|
    decreases |s| - p
  {
    if p + |fence| > |s| then []
    else if OccursAt(s, fence, p) then
      var e := FindFrom(s, CloseFence, p + |fence|);
      if e < 0 then Scan(s, fence, p + 1)
      else [Span(p + |fence|, e)] + Scan(s, fence, e + |CloseFence|)
    else Scan(s, fence, p + 1)
  }

  /** The scan's spans come in text order without overlapping, each behind position `p`. */
  lemma {:induction false} ScanSpansOrdered(s: string, fence: string, p: nat)
    requires |fence| > 0 && p <= |s|
    ensures forall i :: 0 <= i < |Scan(s, fence, p)| ==> p + |fence| <= Scan(s, fence, p)[i].start
    ensures forall i :: 0 <= i < |Scan(s, fence, p)| - 1 ==>
      Scan(s, fence, p)[i].end + |CloseFence| + |fence| <= Scan(s, fence, p)[i + 1].start
    decreases |s| - p
  {
    if p + |fence| > |s| {
    } else if OccursAt(s, fence, p) {
      var e := FindFrom(s, CloseFence, p + |fence|);
      if e < 0 {
        ScanSpansOrdered(s, fence, p + 1);
        assert Scan(s, fence, p) == Scan(s, fence, p + 1);
      } else {
        var rest := Scan(s, fence, e + |CloseFence|);
        ScanSpansOrdered(s, fence, e + |CloseFence|);
        var r := [Span(p + |fence|, e)] + rest;
        assert Scan(s, fence, p) == r;
        forall i | 0 <= i < |r| - 1
          ensures r[i].end + |CloseFence| + |fence| <= r[i + 1].start
        {
          assert r[i + 1] == rest[i];
          if i > 0 { assert r[i] == rest[i - 1]; }
        }
      }
    } else {
      ScanSpansOrdered(s, fence, p + 1);
      assert Scan(s, fence, p) == Scan(s, fence, p + 1);
    }
  }

  /** The span found at an opening fence is a match taking the shortest body. */
  lemma FirstSpanIsMatch(s: string, fence: string, p: nat)
    requires p + |fence| <= |s| && OccursAt(s, fence, p)
    requires FindFrom(s, CloseFence, p + |fence|) >= 0
    ensures IsMatch(s, fence, Span(p + |fence|, FindFrom(s, CloseFence, p + |fence|)))
  {
    assert p + |fence| - |fence| == p;
  }

  /** Every span the scan returns is a match of the pattern, taking the shortest body. */
  lemma {:induction false} ScanSpansAreMatches(s: string, fence: string, p: nat)
    requires |fence| > 0 && p <= |s|
    ensures forall i :: 0 <= i < |Scan(s, fence, p)| ==> IsMatch(s, fence, Scan(s, fence, p)[i])
    decreases |s| - p
  {
    if p + |fence| > |s| {
    } else if OccursAt(s, fence, p) {
      var e := FindFrom(s, CloseFence, p + |fence|);
      if e < 0 {
        ScanSpansAreMatches(s, fence, p + 1);
        assert Scan(s, fence, p) == Scan(s, fence, p + 1);
      } else {
        var rest := Scan(s, fence, e + |CloseFence|);
        ScanSpansAreMatches(s, fence, e + |CloseFence|);
        FirstSpanIsMatch(s, fence, p);
        var r := [Span(p + |fence|, e)] + rest;
        assert Scan(s, fence, p) == r;
        forall i | 0 <= i < |r| ensures IsMatch(s, fence, r[i]) {
          if i > 0 { assert r[i] == rest[i - 1]; }
        }
      }
    } else {
      ScanSpansAreMatches(s, fence, p + 1);
      assert Scan(s, fence, p) == Scan(s, fence, p + 1);
    }
  }

  /** The scan finds a block exactly when the text has an opening fence with a closing fence
      after it. */
  lemma {:induction false} ScanFindsBlock(s: string, fence: string, p: nat)
    requires |fence| > 0 && p <= |s|
    ensures Scan(s, fence, p) != [] <==> HasBlockFrom(s, fence, p)
    decreases |s| - p
  {
    if p + |fence| > |s| {
      assert !HasBlockFrom(s, fence, p);
    } else if OccursAt(s, fence, p) {
      var e := FindFrom(s, CloseFence, p + |fence|);
      if e < 0 {
        ScanFindsBlock(s, fence, p + 1);
        assert !HasBlockFrom(s, fence, p);
      } else {
        assert p <= p && OccursAt(s, fence, p) && p + |fence| <= e && OccursAt(s, CloseFence, e);
      }
    } else {
      ScanFindsBlock(s, fence, p + 1);
      if HasBlockFrom(s, fence, p) {
        var k, e :| p <= k && OccursAt(s, fence, k) && k + |fence| <= e && OccursAt(s, CloseFence, e);
        assert k != p;
        assert HasBlockFrom(s, fence, p + 1);
      }
    }
  }

  /** A match of the pattern can begin at `k`: an opening fence there with a closing fence
      somewhere after it. */
  ghost predicate OpensBlockAt(s: string, fence: string, k: nat)
  {
    OccursAt(s, fence, k) && exists e :: k + |fence| <= e && OccursAt(s, CloseFence, e)
  }

  /** The scan misses no leading match: when it finds nothing no match begins at or after `p`,
      and otherwise none begins before its first span's opening fence. */
  lemma {:induction false} ScanMissesNoFirstMatch(s: string, fence: string, p: nat)
    requires |fence| > 0 && p <= |s|
    ensures var r := Scan(s, fence, p);
      r == [] ==> forall k :: p <= k ==> !OpensBlockAt(s, fence, k)
    ensures var r := Scan(s, fence, p);
      r != [] ==> forall k :: p <= k < r[0].start - |fence| ==> !OpensBlockAt(s, fence, k)
    decreases |s| - p
  {
    if p + |fence| > |s| {
      forall k | p <= k ensures !OpensBlockAt(s, fence, k) {
        assert !OccursAt(s, fence, k);
      }
    } else if OccursAt(s, fence, p) {
      if FindFrom(s, CloseFence, p + |fence|) < 0 {
        ScanMissesNoFirstMatch(s, fence, p + 1);
        assert Scan(s, fence, p) == Scan(s, fence, p + 1);
        assert !OpensBlockAt(s, fence, p);
      }
    } else {
      ScanMissesNoFirstMatch(s, fence, p + 1);
      assert Scan(s, fence, p) == Scan(s, fence, p + 1);
    }
  }

  /** The scan misses no match between its spans: none begins between the closing fence of
      one span and the opening fence of the next. */
  lemma {:induction false} ScanMissesNoMatch(s: string, fence: string, p: nat)
    requires |fence| > 0 && p <= |s|
    ensures var r := Scan(s, fence, p);
      forall i, k :: 0 <= i < |r| - 1 && r[i].end + |CloseFence| <= k < r[i + 1].start - |fence|
        ==> !OpensBlockAt(s, fence, k)
    decreases |s| - p
  {
    var r := Scan(s, fence, p);
    if p + |fence| > |s| {
    } else if OccursAt(s, fence, p) {
      var e := FindFrom(s, CloseFence, p + |fence|);
      if e < 0 {
        ScanMissesNoMatch(s, fence, p + 1);
        assert r == Scan(s, fence, p + 1);
      } else {
        var next := e + |CloseFence|;
        var rest := Scan(s, fence, next);
        ScanMissesNoMatch(s, fence, next);
        ScanMissesNoFirstMatch(s, fence, next);
        assert r == [Span(p + |fence|, e)] + rest;
        forall i, k | 0 <= i < |r| - 1 && r[i].end + |CloseFence| <= k < r[i + 1].start - |fence|
          ensures !OpensBlockAt(s, fence, k)
        {
          assert r[i + 1] == rest[i];
          if i > 0 {
            assert r[i] == rest[i - 1];
            assert 0 <= i - 1 < |rest| - 1;
          } else {
            assert next <= k < rest[0].start - |fence|;
          }
        }
      }
    } else {
      ScanMissesNoMatch(s, fence, p + 1);
      assert r == Scan(s, fence, p + 1);
    }
  }

  /** The scan misses no trailing match: none begins after its last span's closing fence. */
  lemma {:induction false} ScanMissesNoLastMatch(s: string, fence: string, p: nat)
    requires |fence| > 0 && p <= |s|
    ensures var r := Scan(s, fence, p);
      r != [] ==> forall k :: r[|r| - 1].end + |CloseFence| <= k ==> !OpensBlockAt(s, fence, k)
    decreases |s| - p
  {
    var r := Scan(s, fence, p);
    if p + |fence| > |s| {
    } else if OccursAt(s, fence, p) {
      var e := FindFrom(s, CloseFence, p + |fence|);
      if e < 0 {
        ScanMissesNoLastMatch(s, fence, p + 1);
        assert r == Scan(s, fence, p + 1);
      } else {
        var next := e + |CloseFence|;
        var rest := Scan(s, fence, next);
        assert r == [Span(p + |fence|, e)] + rest;
        if rest == [] {
          ScanMissesNoFirstMatch(s, fence, next);
        } else {
          ScanMissesNoLastMatch(s, fence, next);
          assert r[|r| - 1] == rest[|rest| - 1];
        }
      }
    } else {
      ScanMissesNoLastMatch(s, fence, p + 1);
      assert r == Scan(s, fence, p + 1);
    }
  }

  /** Every span lies inside the text. */
  predicate InBounds(s: string, spans: seq<Span>)
  {
    forall i :: 0 <= i < |spans| ==> spans[i].start <= spans[i].end <= |s|
  }

  /** The scan's spans lie inside the text. */
  lemma ScanInBounds(s: string, fence: string, p: nat)
    requires |fence| > 0 && p <= |s|
    ensures InBounds(s, Scan(s, fence, p))
  {
    ScanSpansAreMatches(s, fence, p);
  }

  /** The texts of the matched bodies, in match order. */
  function Bodies(s: string, spans: seq<Span>): (bodies: seq<string>)
    requires InBounds(s, spans)
    ensures |bodies| == |spans|
  {
    if spans == [] then [] else [s[spans[0].start..spans[0].end]] + Bodies(s, spans[1..])
  }

  /** Body `i` is the text between the ends of span `i`. */
  lemma {:induction false} BodiesAt(s: string, spans: seq<Span>, i: nat)
    requires InBounds(s, spans) && i < |spans|
    ensures Bodies(s, spans)[i] == s[spans[i].start..spans[i].end]
    decreases i
  {
    if i > 0 {
      BodiesAt(s, spans[1..], i - 1);
    }
  }

  /** The body of a match holds no closing fence: the lazy `.*?` stops at the first one. */
  lemma MatchBodyHasNoCloseFence(s: string, fence: string, b: Span)
    requires IsMatch(s, fence, b)
    ensures !Contains(s[b.start..b.end], CloseFence)
  {
    if Contains(s[b.start..b.end], CloseFence) {
      var j :| 0 <= j <= |s[b.start..b.end]| && OccursAt(s[b.start..b.end], CloseFence, j);
      OccursInSlice(s, b.start, b.end, CloseFence, j);
    }
  }

  /** `extract_code`: the python-fenced bodies if there are any, else the bare-fenced ones. */
  function ExtractCode(text: string): seq<string>
  {
    ScanInBounds(text, PythonFence, 0);
    ScanInBounds(text, BareFence, 0);
    var py := Scan(text, PythonFence, 0);
    if |py| > 0 then Bodies(text, py) else Bodies(text, Scan(text, BareFence, 0))
  }

  /** No extracted body contains a closing fence `\n````. */
  lemma BodiesHaveNoCloseFence(text: string)
    ensures forall i :: 0 <= i < |ExtractCode(text)| ==> !Contains(ExtractCode(text)[i], CloseFence)
  {
    var py := Scan(text, PythonFence, 0);
    var fence := if |py| > 0 then PythonFence else BareFence;
    var spans := Scan(text, fence, 0);
    ScanSpansAreMatches(text, fence, 0);
    ScanInBounds(text, fence, 0);
    assert ExtractCode(text) == Bodies(text, spans);
    forall i | 0 <= i < |spans|
      ensures !Contains(Bodies(text, spans)[i], CloseFence)
    {
      assert IsMatch(text, fence, spans[i]);
      MatchBodyHasNoCloseFence(text, fence, spans[i]);
      BodiesAt(text, spans, i);
    }
  }

  /** Some block is extracted exactly when the text holds an opening fence, of either kind,
      followed somewhere by a closing fence. */
  lemma ExtractCodeFindsBlock(text: string)
    ensures |ExtractCode(text)| > 0 <==>
      HasBlockFrom(text, PythonFence, 0) || HasBlockFrom(text, BareFence, 0)
  {
    ScanFindsBlock(text, PythonFence, 0);
    ScanFindsBlock(text, BareFence, 0);
  }

  /** The bare-fence pattern is only a fallback: whenever the text holds a python-fenced block,
      the blocks are exactly the python-fenced bodies, in text order. */
  lemma PythonFencesFirst(text: string)
    requires HasBlockFrom(text, PythonFence, 0)
    ensures InBounds(text, Scan(text, PythonFence, 0))
      && ExtractCode(text) == Bodies(text, Scan(text, PythonFence, 0))
  {
    ScanFindsBlock(text, PythonFence, 0);
    ScanInBounds(text, PythonFence, 0);
  }

  /** A single python fence gives exactly its body. */
  lemma {:induction false} SingleFencedBlock(code: string)
    requires !Contains(code, CloseFence)
    ensures ExtractCode(PythonFence + code + CloseFence) == [code]
  {
    var t := PythonFence + code + CloseFence;
    var n := |PythonFence|;
    assert OccursAt(t, PythonFence, 0);
    assert OccursAt(t, CloseFence, n + |code|);
    var e := FindFrom(t, CloseFence, n);
    forall j | n <= j < n + |code| ensures !OccursAt(t, CloseFence, j) {
      if j + |CloseFence| <= n + |code| {
        assert t[j..j + |CloseFence|] == code[j - n..j - n + |CloseFence|];
        assert !OccursAt(code, CloseFence, j - n);
      } else {
        // A closing fence reaching into the final one would need its `\n` to be a backquote.
        assert t[n + |code|] == '\n';
        assert CloseFence[n + |code| - j] == '`';
      }
    }
    assert e == n + |code|;
    assert Scan(t, PythonFence, e + |CloseFence|) == [];
    assert Scan(t, PythonFence, 0) == [Span(n, n + |code|)];
    assert t[n..n + |code|] == code;
  }
}
