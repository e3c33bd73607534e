/** The script injector: a page-wide registry of injected script texts, the
    script children of the document head, an attach step that appends one
    script element per accepted text, and the cleanup step that runs when the
    view is torn down. */
module DynamicScripts {

  /** One script element of the document head. `dataDynamic` is true when
      the element carries the attribute data-dynamic="true". */
  datatype Elem = Elem(id: string, text: string, async: bool, scriptType: string, dataDynamic: bool)

  const IdPrefix: string := "ac-dynamic-script-"
  const ScriptType: string := "text/javascript"

  // ---------------------------------------------------------------------------
  // Decimal rendering of the id counter
  // ---------------------------------------------------------------------------

  function DigitChar(d: nat): (c: char)
    requires d < 10
    ensures '0' <= c <= '9' && c as int - '0' as int == d
  {
    (d + '0' as int) as char
  }

  /** The decimal digits of `n`, as a template literal renders a number. */
  function NatToString(n: nat): (r: string)
    ensures |r| >= 1
    ensures forall i :: 0 <= i < |r| ==> '0' <= r[i] <= '9'
    ensures r[0] != '0' || n == 0
  {
    if n < 10 then [DigitChar(n)] else NatToString(n / 10) + [DigitChar(n % 10)]
  }

  /** Reads a string of decimal digits back as a number. */
  function ParseDecimal(s: string): nat
    requires forall i :: 0 <= i < |s| ==> '0' <= s[i] <= '9'
  {
    if s == [] then 0
    else ParseDecimal(s[..|s| - 1]) * 10 + (s[|s| - 1] as int - '0' as int)
  }

  lemma {:induction false} ParseNatToString(n: nat)
    ensures ParseDecimal(NatToString(n)) == n
  {
    var r := NatToString(n);
    if n >= 10 {
      ParseNatToString(n / 10);
      assert r[..|r| - 1] == NatToString(n / 10);
    }
  }

  /** Different counters give different decimal strings. */
  lemma NatToStringInjective(m: nat, n: nat)
    requires NatToString(m) == NatToString(n)
    ensures m == n
  {
    ParseNatToString(m);
    ParseNatToString(n);
  }

  /** The id an element gets when the registry holds `size` texts. */
  function ScriptId(size: nat): (r: string)
    ensures |r| > |IdPrefix| && r[..|IdPrefix|] == IdPrefix
  {
    IdPrefix + NatToString(size + 1)
  }

  lemma ScriptIdInjective(m: nat, n: nat)
    requires ScriptId(m) == ScriptId(n)
    ensures m == n
  {
    assert NatToString(m + 1) == ScriptId(m)[|IdPrefix|..];
    assert NatToString(n + 1) == ScriptId(n)[|IdPrefix|..];
    NatToStringInjective(m + 1, n + 1);
  }

  // ---------------------------------------------------------------------------
  // Attach, as written
  // ---------------------------------------------------------------------------

  /** A text the attach loop skips: the empty string (the only falsy string)
      or a text already in the registry. */
  predicate Skipped(text: string, registry: set<string>)
  {
    text == "" || text in registry
  }

  /** The element the attach loop builds for `text`. */
  function NewScript(text: string, size: nat): Elem
  {
    Elem(ScriptId(size), text, true, ScriptType, false)
  }

  /** The texts the attach loop accepts, in list order. */
  function Kept(scripts: seq<string>, registry: set<string>): (r: seq<string>)
    ensures |r| <= |scripts|
    ensures forall k :: 0 <= k < |r| ==> !Skipped(r[k], registry)
  {
    if scripts == [] then []
    else
      var last := scripts[|scripts| - 1];
      Kept(scripts[..|scripts| - 1], registry) + (if Skipped(last, registry) then [] else [last])
  }

  /** One element per accepted text, each numbered from the registry's size. */
  function Appended(scripts: seq<string>, registry: set<string>): seq<Elem>
  {
    var texts := Kept(scripts, registry);
    seq(|texts|, k requires 0 <= k < |texts| => NewScript(texts[k], |registry|))
  }

  lemma AppendedSnoc(scripts: seq<string>, text: string, registry: set<string>)
    ensures Appended(scripts + [text], registry) ==
            Appended(scripts, registry) + (if Skipped(text, registry) then [] else [NewScript(text, |registry|)])
  {
    assert (scripts + [text])[..|scripts|] == scripts;
  }

  /** Accepted texts of a concatenation are the accepted texts of each part,
      in order. */
  lemma {:induction false} KeptConcat(a: seq<string>, b: seq<string>, registry: set<string>)
    ensures Kept(a + b, registry) == Kept(a, registry) + Kept(b, registry)
    decreases |b|
  {
    if b == [] {
      assert a + b == a;
    } else {
      var b' := b[..|b| - 1];
      assert (a + b)[..|a + b| - 1] == a + b';
      KeptConcat(a, b', registry);
    }
  }

  /** A skipped text (empty, or already registered) appends nothing wherever
      it stands in the list. */
  lemma SkippedAddsNothing(a: seq<string>, text: string, b: seq<string>, registry: set<string>)
    requires Skipped(text, registry)
    ensures Appended(a + [text] + b, registry) == Appended(a + b, registry)
  {
    KeptConcat(a + [text], b, registry);
    KeptConcat(a, [text], registry);
    KeptConcat(a, b, registry);
    assert [text][..0] == [];
  }

  lemma EmptyAddsNothing(a: seq<string>, b: seq<string>, registry: set<string>)
    ensures Appended(a + [""] + b, registry) == Appended(a + b, registry)
  {
    SkippedAddsNothing(a, "", b, registry);
  }

  /** Each text is accepted exactly as often as it occurs in the list unless
      it is empty or registered; in particular duplicates are accepted again. */
  lemma {:induction false} KeptCount(scripts: seq<string>, registry: set<string>, text: string)
    ensures multiset(Kept(scripts, registry))[text] ==
            if Skipped(text, registry) then 0 else multiset(scripts)[text]
  {
    if scripts != [] {
      var init := scripts[..|scripts| - 1];
      KeptCount(init, registry, text);
      assert scripts == init + [scripts[|scripts| - 1]];
    }
  }

  /** The accepted texts are those that are neither empty nor registered. */
  lemma {:induction false} KeptMembers(scripts: seq<string>, registry: set<string>)
    ensures forall t :: t in Kept(scripts, registry) <==> t in scripts && !Skipped(t, registry)
  {
    if scripts != [] {
      var init := scripts[..|scripts| - 1];
      KeptMembers(init, registry);
      assert scripts == init + [scripts[|scripts| - 1]];
    }
  }

  /** What each appended element holds: its source text, the async flag, the
      script type, no data-dynamic marker, and the id numbered from the
      registry's size; so the count appended is the count accepted. */
  lemma AppendedElements(scripts: seq<string>, registry: set<string>)
    ensures |Appended(scripts, registry)| == |Kept(scripts, registry)|
    ensures forall k :: 0 <= k < |Appended(scripts, registry)| ==>
              var e := Appended(scripts, registry)[k];
              e.text == Kept(scripts, registry)[k] && e.async && e.scriptType == "text/javascript" &&
              !e.dataDynamic && e.id == "ac-dynamic-script-" + NatToString(|registry| + 1)
  {
  }

  /** Because the registry never grows during attach, all appended elements
      share one id, and with an empty registry it is ac-dynamic-script-1. */
  lemma AppendedSameId(scripts: seq<string>, registry: set<string>)
    ensures forall j, k :: 0 <= j < k < |Appended(scripts, registry)| ==>
              Appended(scripts, registry)[j].id == Appended(scripts, registry)[k].id
    ensures registry == {} ==>
              forall k :: 0 <= k < |Appended(scripts, registry)| ==>
                Appended(scripts, registry)[k].id == "ac-dynamic-script-1"
  {
    assert NatToString(1) == "1";
  }

  /** Attaching ["a", "a"] on a fresh page appends two elements with the
      same id. */
  lemma AttachAppendsDuplicates()
    ensures Appended(["a", "a"], {}) == [NewScript("a", 0), NewScript("a", 0)]
    ensures Appended(["a", "a"], {})[0].id == Appended(["a", "a"], {})[1].id == "ac-dynamic-script-1"
  {
    assert ["a"][..0] == [];
    assert Kept(["a"], {}) == ["a"];
    assert ["a", "a"][..1] == ["a"];
    assert Kept(["a", "a"], {}) == ["a", "a"];
    assert NatToString(1) == "1";
  }

  /** Attaching ["a", "", "a", "b"] on a fresh page appends three elements:
      only the empty string is skipped. */
  lemma AttachMixedExample()
    ensures |Appended(["a", "", "a", "b"], {})| == 3
    ensures Kept(["a", "", "a", "b"], {}) == ["a", "a", "b"]
  {
    var s := ["a", "", "a", "b"];
    assert s[..3] == ["a", "", "a"];
    assert s[..3][..2] == ["a", ""];
    assert s[..3][..2][..1] == ["a"];
    assert ["a"][..0] == [];
    assert Kept(["a"], {}) == ["a"];
    assert Kept(["a", ""], {}) == ["a"];
    assert Kept(["a", "", "a"], {}) == ["a", "a"];
  }

  // ---------------------------------------------------------------------------
  // Cleanup, as written
  // ---------------------------------------------------------------------------

  /** The non-marked elements of a head, in order. */
  function Unmarked(head: seq<Elem>): seq<Elem>
  {
    if head == [] then []
    else Unmarked(head[..|head| - 1]) + (if head[|head| - 1].dataDynamic then [] else [head[|head| - 1]])
  }

  /** One cleanup iteration: the query for the marked script at position
      `index` (one-based `index + 1`) removes it if it is there. */
  function CleanupStep(head: seq<Elem>, index: nat): (r: seq<Elem>)
    ensures |r| == |head| || |r| == |head| - 1
  {
    if index < |head| && head[index].dataDynamic then head[..index] + head[index + 1..] else head
  }

  /** The head after the first `n` cleanup iterations. */
  function Cleaned(head: seq<Elem>, n: nat): seq<Elem>
  {
    if n == 0 then head else CleanupStep(Cleaned(head, n - 1), n - 1)
  }

  lemma {:induction false} UnmarkedConcat(a: seq<Elem>, b: seq<Elem>)
    ensures Unmarked(a + b) == Unmarked(a) + Unmarked(b)
    decreases |b|
  {
    if b == [] {
      assert a + b == a;
    } else {
      var b' := b[..|b| - 1];
      assert (a + b)[..|a + b| - 1] == a + b';
      UnmarkedConcat(a, b');
    }
  }

  /** A sequence with no marked element is its own unmarked part. */
  lemma {:induction false} UnmarkedNone(s: seq<Elem>)
    requires forall k :: 0 <= k < |s| ==> !s[k].dataDynamic
    ensures Unmarked(s) == s
  {
    if s != [] {
      UnmarkedNone(s[..|s| - 1]);
    }
  }

  lemma CleanupStepKeepsUnmarked(head: seq<Elem>, index: nat)
    ensures Unmarked(CleanupStep(head, index)) == Unmarked(head)
    ensures |CleanupStep(head, index)| >= |head| - 1
  {
    if index < |head| && head[index].dataDynamic {
      assert head == head[..index] + [head[index]] + head[index + 1..];
      UnmarkedConcat(head[..index] + [head[index]], head[index + 1..]);
      UnmarkedConcat(head[..index], [head[index]]);
      UnmarkedConcat(head[..index], head[index + 1..]);
      assert [head[index]][..0] == [];
    }
  }

  /** Cleanup removes only marked elements: the unmarked elements of the
      head, in order, are the same before and after, and at most one element
      goes per iteration. */
  /** Cleanup only removes: every element left was in the head before, as
      often as before, and the head never grows. */
  lemma {:induction false} CleanedSub(head: seq<Elem>, n: nat)
    ensures multiset(Cleaned(head, n)) <= multiset(head)
    ensures |Cleaned(head, n)| <= |head|
  {
    if n > 0 {
      CleanedSub(head, n - 1);
      CleanupStepSub(Cleaned(head, n - 1), n - 1);
    }
  }

  lemma CleanupStepSub(head: seq<Elem>, index: nat)
    ensures multiset(CleanupStep(head, index)) <= multiset(head)
  {
    if index < |head| && head[index].dataDynamic {
      assert head == head[..index] + [head[index]] + head[index + 1..];
    }
  }

  lemma {:induction false} CleanupKeepsUnmarked(head: seq<Elem>, n: nat)
    ensures Unmarked(Cleaned(head, n)) == Unmarked(head)
    ensures |Cleaned(head, n)| >= |head| - n
  {
    if n > 0 {
      CleanupKeepsUnmarked(head, n - 1);
      CleanupStepKeepsUnmarked(Cleaned(head, n - 1), n - 1);
    }
  }

  /** A head without marked elements is left exactly as it was. */
  lemma {:induction false} CleanupWithoutMarks(head: seq<Elem>, n: nat)
    requires forall k :: 0 <= k < |head| ==> !head[k].dataDynamic
    ensures Cleaned(head, n) == head
  {
    if n > 0 {
      CleanupWithoutMarks(head, n - 1);
    }
  }

  /** Elements appended by attach are never removed by the cleanup: attach
      followed by cleanup on a head with no marked element leaves the head
      as attach made it. */
  lemma {:induction false} AttachThenCleanupLeaks(head: seq<Elem>, scripts: seq<string>, registry: set<string>)
    requires forall k :: 0 <= k < |head| ==> !head[k].dataDynamic
    ensures Cleaned(head + Appended(scripts, registry), |scripts|) == head + Appended(scripts, registry)
  {
    var added := Appended(scripts, registry);
    var all := head + added;
    AppendedElements(scripts, registry);
    forall k | 0 <= k < |all| ensures !all[k].dataDynamic {
      if k >= |head| {
        assert all[k] == added[k - |head|];
      }
    }
    CleanupWithoutMarks(all, |scripts|);
  }

  /** Elements appended by attach are never removed by the cleanup, whatever
      the head held before: the unmarked elements after attach and cleanup
      are the old head's unmarked elements followed by everything attach
      appended. */
  lemma AttachThenCleanupKeepsAppended(head: seq<Elem>, scripts: seq<string>, registry: set<string>)
    ensures Unmarked(Cleaned(head + Appended(scripts, registry), |scripts|)) ==
            Unmarked(head) + Appended(scripts, registry)
  {
    var added := Appended(scripts, registry);
    CleanupKeepsUnmarked(head + added, |scripts|);
    UnmarkedConcat(head, added);
    AppendedElements(scripts, registry);
    UnmarkedNone(added);
  }

  /** Even a head of marked elements is not emptied by a cleanup over as many
      indices: the removal at position 0 shifts the next marked element to
      position 0, which the following iteration no longer inspects. */
  lemma CleanupSkipsShifted(e1: Elem, e2: Elem)
    requires e1.dataDynamic && e2.dataDynamic
    ensures Cleaned([e1, e2], 2) == [e2]
  {
    assert Cleaned([e1, e2], 1) == [e1, e2][..0] + [e1, e2][1..];
    assert [e1, e2][..0] + [e1, e2][1..] == [e2];
  }

  // ---------------------------------------------------------------------------
  // Corrected attach and cleanup
  // ---------------------------------------------------------------------------

  /** The element a deduplicating attach builds: as the original, but marked
      so that the cleanup can find it. */
  function MarkedScript(text: string, size: nat): Elem
  {
    Elem(ScriptId(size), text, true, ScriptType, true)
  }

  /** A deduplicating attach run: the elements appended and the registry
      afterwards, registering each accepted text before the next one is
      examined. */
  function DedupRun(scripts: seq<string>, registry: set<string>): (seq<Elem>, set<string>)
  {
    if scripts == [] then ([], registry)
    else
      var (elems, reg) := DedupRun(scripts[..|scripts| - 1], registry);
      var last := scripts[|scripts| - 1];
      if Skipped(last, reg) then (elems, reg)
      else (elems + [MarkedScript(last, |reg|)], reg + {last})
  }

  /** The registry afterwards holds exactly the old texts and every
      non-empty text of the list. */
  lemma {:induction false} DedupRegistry(scripts: seq<string>, registry: set<string>)
    ensures forall t :: t in DedupRun(scripts, registry).1 <==> t in registry || (t in scripts && t != "")
  {
    if scripts != [] {
      var init := scripts[..|scripts| - 1];
      DedupRegistry(init, registry);
      assert scripts == init + [scripts[|scripts| - 1]];
    }
  }

  /** Each new element is numbered in turn from the old registry's size, is
      marked, and carries a non-empty text that was not registered before
      and is registered afterwards; the registry grows by one per element. */
  lemma {:induction false} DedupElems(scripts: seq<string>, registry: set<string>)
    ensures var run := DedupRun(scripts, registry);
            |run.1| == |registry| + |run.0| &&
            forall k :: 0 <= k < |run.0| ==>
              run.0[k] == MarkedScript(run.0[k].text, |registry| + k) &&
              run.0[k].text in run.1 && run.0[k].text !in registry && run.0[k].text != ""
  {
    if scripts != [] {
      var init := scripts[..|scripts| - 1];
      var last := scripts[|scripts| - 1];
      DedupElems(init, registry);
      var prev := DedupRun(init, registry);
      if !Skipped(last, prev.1) {
        var run := DedupRun(scripts, registry);
        assert run == (prev.0 + [MarkedScript(last, |prev.1|)], prev.1 + {last});
        assert |run.1| == |prev.1| + 1;
        forall k | 0 <= k < |run.0|
          ensures run.0[k] == MarkedScript(run.0[k].text, |registry| + k)
          ensures run.0[k].text in run.1 && run.0[k].text !in registry && run.0[k].text != ""
        {
          if k < |prev.0| {
            assert run.0[k] == prev.0[k];
          } else {
            assert run.0[k] == MarkedScript(last, |prev.1|);
            assert last !in registry by {
              DedupRegistry(init, registry);
            }
          }
        }
      }
    }
  }

  /** No two new elements hold the same text. */
  lemma {:induction false} DedupDistinctTexts(scripts: seq<string>, registry: set<string>)
    ensures var elems := DedupRun(scripts, registry).0;
            forall j, k :: 0 <= j < k < |elems| ==> elems[j].text != elems[k].text
  {
    if scripts != [] {
      var init := scripts[..|scripts| - 1];
      DedupDistinctTexts(init, registry);
      DedupElems(init, registry);
    }
  }

  lemma DedupRunDistinctIds(scripts: seq<string>, registry: set<string>)
    ensures var elems := DedupRun(scripts, registry).0;
            forall j, k :: 0 <= j < k < |elems| ==> elems[j].id != elems[k].id
  {
    var elems := DedupRun(scripts, registry).0;
    DedupElems(scripts, registry);
    forall j, k | 0 <= j < k < |elems| ensures elems[j].id != elems[k].id {
      if elems[j].id == elems[k].id {
        ScriptIdInjective(|registry| + j, |registry| + k);
      }
    }
  }

  /** A list whose texts are all empty or registered appends nothing. */
  lemma {:induction false} DedupRunRegistered(scripts: seq<string>, registry: set<string>)
    requires forall k :: 0 <= k < |scripts| ==> Skipped(scripts[k], registry)
    ensures DedupRun(scripts, registry) == ([], registry)
  {
    if scripts != [] {
      DedupRunRegistered(scripts[..|scripts| - 1], registry);
    }
  }

  /** Attaching the same list a second time appends nothing. */
  lemma DedupIdempotent(scripts: seq<string>, registry: set<string>)
    ensures var reg := DedupRun(scripts, registry).1;
            DedupRun(scripts, reg) == ([], reg)
  {
    DedupRegistry(scripts, registry);
    DedupRunRegistered(scripts, DedupRun(scripts, registry).1);
  }

  /** Attaching ["a", "", "a", "b"] on a fresh page appends "a" then "b". */
  lemma DedupMixedExample()
    ensures |DedupRun(["a", "", "a", "b"], {}).0| == 2
    ensures DedupRun(["a", "", "a", "b"], {}).0[0].text == "a"
    ensures DedupRun(["a", "", "a", "b"], {}).0[1].text == "b"
  {
    var none: set<string> := {};
    var s := ["a", "", "a", "b"];
    assert s[..3] == ["a", "", "a"];
    assert s[..3][..2] == ["a", ""];
    assert s[..3][..2][..1] == ["a"];
    assert ["a"][..0] == [];
    var ea := MarkedScript("a", 0);
    assert DedupRun(["a"][..0], none) == ([], none);
    assert DedupRun(["a"], none).1 == {"a"};
    assert DedupRun(["a"], none).0 == [ea];
    assert DedupRun(["a", ""], none) == ([ea], {"a"});
    assert DedupRun(["a", "", "a"], none) == ([ea], {"a"});
    assert DedupRun(s, none).0 == [ea, MarkedScript("b", 1)];
  }

  /** Whether a corrected cleanup of `scripts` removes `e`: a marked element
      whose text is one of the list's. */
  predicate Owned(e: Elem, scripts: seq<string>)
  {
    e.dataDynamic && e.text in scripts
  }

  /** The head after the corrected cleanup: every owned element removed. */
  function Released(head: seq<Elem>, scripts: seq<string>): seq<Elem>
  {
    if head == [] then []
    else
      var last := head[|head| - 1];
      Released(head[..|head| - 1], scripts) + (if Owned(last, scripts) then [] else [last])
  }

  lemma {:induction false} ReleasedConcat(a: seq<Elem>, b: seq<Elem>, scripts: seq<string>)
    ensures Released(a + b, scripts) == Released(a, scripts) + Released(b, scripts)
    decreases |b|
  {
    if b == [] {
      assert a + b == a;
    } else {
      var b' := b[..|b| - 1];
      assert (a + b)[..|a + b| - 1] == a + b';
      ReleasedConcat(a, b', scripts);
    }
  }

  /** The corrected cleanup keeps exactly the elements it does not own. */
  lemma {:induction false} ReleasedMembers(head: seq<Elem>, scripts: seq<string>)
    ensures forall e :: e in Released(head, scripts) <==> e in head && !Owned(e, scripts)
  {
    if head != [] {
      var init := head[..|head| - 1];
      ReleasedMembers(init, scripts);
      assert head == init + [head[|head| - 1]];
    }
  }

  lemma {:induction false} ReleasedAllOwned(elems: seq<Elem>, scripts: seq<string>)
    requires forall k :: 0 <= k < |elems| ==> Owned(elems[k], scripts)
    ensures Released(elems, scripts) == []
  {
    if elems != [] {
      ReleasedAllOwned(elems[..|elems| - 1], scripts);
    }
  }

  lemma {:induction false} ReleasedNoneOwned(head: seq<Elem>, scripts: seq<string>)
    requires forall k :: 0 <= k < |head| ==> !Owned(head[k], scripts)
    ensures Released(head, scripts) == head
  {
    if head != [] {
      ReleasedNoneOwned(head[..|head| - 1], scripts);
    }
  }

  /** Corrected attach followed by corrected cleanup of the same list returns
      the head to what it was, when it held no element of that list's. */
  lemma DedupAttachThenRelease(head: seq<Elem>, scripts: seq<string>, registry: set<string>)
    requires forall k :: 0 <= k < |head| ==> !Owned(head[k], scripts)
    ensures Released(head + DedupRun(scripts, registry).0, scripts) == head
  {
    var elems := DedupRun(scripts, registry).0;
    DedupElems(scripts, registry);
    DedupRegistry(scripts, registry);
    ReleasedConcat(head, elems, scripts);
    ReleasedNoneOwned(head, scripts);
    forall k | 0 <= k < |elems| ensures Owned(elems[k], scripts) {
      assert elems[k].text in DedupRun(scripts, registry).1;
    }
    ReleasedAllOwned(elems, scripts);
  }

  // ---------------------------------------------------------------------------
  // The page: document head and module-level registry
  // ---------------------------------------------------------------------------

  class Document {
    /** The script children of document.head, in document order. */
    var head: seq<Elem>
    /** The module-level set injectedScripts. */
    var registry: set<string>

    /** A page as loaded: the head it came with, and an empty registry. */
    constructor (initialHead: seq<Elem>)
      ensures head == initialHead && registry == {}
    {
      head := initialHead;
      registry := {};
    }

    /** The effect body of the hook: one element per accepted text appended
        to the head in list order; the registry is read, never written. */
    method Attach(scripts: seq<string>)
      modifies this
      ensures registry == old(registry)
      ensures head == old(head) + Appended(scripts, old(registry))
    {
      for i := 0 to |scripts|
        invariant registry == old(registry)
        invariant head == old(head) + Appended(scripts[..i], registry)
      {
        var scriptContent := scripts[i];
        AppendedSnoc(scripts[..i], scriptContent, registry);
        assert scripts[..i + 1] == scripts[..i] + [scriptContent];
        if scriptContent != "" && scriptContent !in registry {
          var script := Elem(ScriptId(|registry|), scriptContent, true, ScriptType, false);
          head := head + [script];
        }
      }
      assert scripts[..|scripts|] == scripts;
    }

    /** The cleanup closure: for each index of the list, remove the marked
        script at that position of the current head, if any. */
    method Cleanup(scripts: seq<string>)
      modifies this
      ensures registry == old(registry)
      ensures head == Cleaned(old(head), |scripts|)
    {
      for index := 0 to |scripts|
        invariant registry == old(registry)
        invariant head == Cleaned(old(head), index)
      {
        if index < |head| && head[index].dataDynamic {
          head := head[..index] + head[index + 1..];
        }
      }
    }

    /** Corrected attach: skip empty and registered texts, mark each new
        element, and register its text before the next text is examined. */
    method AttachDeduplicated(scripts: seq<string>)
      modifies this
      ensures head == old(head) + DedupRun(scripts, old(registry)).0
      ensures registry == DedupRun(scripts, old(registry)).1
    {
      for i := 0 to |scripts|
        invariant head == old(head) + DedupRun(scripts[..i], old(registry)).0
        invariant registry == DedupRun(scripts[..i], old(registry)).1
      {
        var scriptContent := scripts[i];
        assert scripts[..i + 1][..i] == scripts[..i];
        assert scripts[..i + 1][i] == scriptContent;
        if scriptContent != "" && scriptContent !in registry {
          var script := Elem(ScriptId(|registry|), scriptContent, true, ScriptType, true);
          head := head + [script];
          registry := registry + {scriptContent};
        }
      }
      assert scripts[..|scripts|] == scripts;
    }

    /** Corrected cleanup: remove every marked element whose text is one of
        the list's, by marker and text rather than position. */
    method CleanupDeduplicated(scripts: seq<string>)
      modifies this
      ensures registry == old(registry)
      ensures head == Released(old(head), scripts)
    {
      var kept: seq<Elem> := [];
      for i := 0 to |head|
        invariant kept == Released(head[..i], scripts)
      {
        assert head[..i + 1][..i] == head[..i];
        if !(head[i].dataDynamic && head[i].text in scripts) {
          kept := kept + [head[i]];
        }
      }
      assert head[..|head|] == head;
      head := kept;
    }
  }
}
