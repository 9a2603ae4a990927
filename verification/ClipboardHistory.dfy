/** The clipboard history: most recent first, no duplicates, at most fifty items. */
module ClipboardHistory {

  const MAX_ITEMS: nat := 50

  function Without(items: seq<string>, text: string): seq<string> {
    if items == [] then []
    else if items[0] == text then Without(items[1..], text)
    else [items[0]] + Without(items[1..], text)
  }

  function Truncated(items: seq<string>): seq<string> {
    if |items| > MAX_ITEMS then items[..MAX_ITEMS] else items
  }

  /** Move to front, without the limit. */
  function Recent(items: seq<string>, text: string): seq<string> {
    if items != [] && items[0] == text then items else [text] + Without(items, text)
  }

  predicate Distinct(items: seq<string>) {
    forall i, j :: 0 <= i < j < |items| ==> items[i] != items[j]
  }

  /** The store file, as the list it parses to. */
  class Store {
    var items: seq<string>

    constructor ()
      ensures items == []
    {
      items := [];
    }

    /** `erase(remove(...))`. */
    method Erase(items: seq<string>, text: string) returns (kept: seq<string>)
      ensures kept == Without(items, text)
    {
      kept := [];
      var i := 0;
      while i < |items|
        invariant 0 <= i <= |items| && kept == Without(items[..i], text)
      {
        assert items[..i + 1] == items[..i] + [items[i]];
        WithoutSnoc(items[..i], items[i], text);
        if items[i] != text {
          kept := kept + [items[i]];
        }
        i := i + 1;
      }
      assert items[..i] == items;
    }

    /** `add`: nothing happens when the text is empty, the history is off, the text is already the newest item, or the
        file cannot be replaced. */
    method Add(text: string, enabled: bool, writable: bool) returns (added: bool)
      modifies this
      ensures added <==> text != "" && enabled && (old(items) == [] || old(items)[0] != text) && writable
      ensures items == if added then Truncated(Recent(old(items), text)) else old(items)
    {
      if text == "" || !enabled { return false; }
      if items != [] && items[0] == text { return false; }
      var kept := Erase(items, text);
      var next := [text] + kept;
      if |next| > MAX_ITEMS {
        next := next[..MAX_ITEMS];
      }
      if !writable { return false; }
      items := next;
      added := true;
    }

    /** `remove` reads the list before it takes the write lock: `read` is what it read, and the list may have changed
        since. */
    method RemoveRead(text: string, read: seq<string>, writable: bool) returns (removed: bool)
      modifies this
      ensures removed <==> text != "" && text in read && writable
      ensures items == if removed then Without(read, text) else old(items)
    {
      if text == "" { return false; }
      var kept := Erase(read, text);
      WithoutCounts(read, text);
      if |kept| == |read| { return false; }
      if !writable { return false; }
      items := kept;
      removed := true;
    }
  }

  lemma {:induction false} WithoutSnoc(items: seq<string>, last: string, text: string)
    ensures Without(items + [last], text) == Without(items, text) + (if last == text then [] else [last])
  {
    if items == [] {
      assert items + [last] == [last];
    } else {
      WithoutSnoc(items[1..], last, text);
      assert (items + [last])[1..] == items[1..] + [last];
    }
  }

  lemma {:induction false} WithoutCounts(items: seq<string>, text: string)
    ensures |Without(items, text)| <= |items|
    ensures |Without(items, text)| == |items| <==> text !in items
  {
    if items != [] {
      WithoutCounts(items[1..], text);
    }
  }

  lemma {:induction false} WithoutMembers(items: seq<string>, text: string)
    ensures forall x :: x in Without(items, text) <==> x in items && x != text
    ensures Distinct(items) ==> Distinct(Without(items, text))
  {
    if items != [] {
      WithoutMembers(items[1..], text);
      if Distinct(items) {
        forall i, j | 0 <= i < j < |items[1..]| ensures items[1..][i] != items[1..][j] {
          assert items[i + 1] != items[j + 1];
        }
        if items[0] != text {
          DistinctCons(items[0], items[1..], Without(items[1..], text));
        }
      }
    }
  }

  lemma DistinctCons(head: string, tail: seq<string>, kept: seq<string>)
    requires Distinct([head] + tail) && Distinct(kept) && forall x :: x in kept ==> x in tail
    ensures Distinct([head] + kept)
  {
    forall j | 0 <= j < |kept| ensures kept[j] != head {
      assert kept[j] in tail;
      var k :| 0 <= k < |tail| && tail[k] == kept[j];
      assert ([head] + tail)[0] != ([head] + tail)[k + 1];
    }
    DistinctFront(head, kept);
  }

  lemma DistinctFront(head: string, kept: seq<string>)
    requires Distinct(kept) && forall j :: 0 <= j < |kept| ==> kept[j] != head
    ensures Distinct([head] + kept)
  {
    var all := [head] + kept;
    forall i, j | 0 <= i < j < |all| ensures all[i] != all[j] {
      assert all[j] == kept[j - 1];
    }
  }

  lemma {:induction false} WithoutAbsent(items: seq<string>, text: string)
    requires text !in items
    ensures Without(items, text) == items
  {
    if items != [] {
      assert items[0] in items;
      WithoutAbsent(items[1..], text);
    }
  }

  lemma {:induction false} WithoutAt(items: seq<string>, i: nat)
    requires Distinct(items) && i < |items|
    ensures Without(items, items[i]) == items[..i] + items[i + 1..]
  {
    var rest := items[1..];
    if i == 0 {
      forall j | 0 <= j < |rest| ensures rest[j] != items[0] {
        assert items[j + 1] != items[0];
      }
      WithoutAbsent(rest, items[0]);
    } else {
      forall k, j | 0 <= k < j < |rest| ensures rest[k] != rest[j] {
        assert items[k + 1] != items[j + 1];
      }
      WithoutAt(rest, i - 1);
      assert rest[i - 1] == items[i] && items[0] != items[i];
      assert [items[0]] + (rest[..i - 1] + rest[i..]) == items[..i] + items[i + 1..];
    }
  }

  /** In a list without repetitions, dropping a word cuts out its one place. */
  lemma WithoutIsCut(items: seq<string>, text: string)
    ensures text !in items ==> Without(items, text) == items
    ensures Distinct(items) ==> forall i :: 0 <= i < |items| && items[i] == text ==>
      Without(items, text) == items[..i] + items[i + 1..]
  {
    hide Without;
    if text !in items {
      WithoutAbsent(items, text);
    }
    if Distinct(items) {
      forall i | 0 <= i < |items| && items[i] == text ensures Without(items, text) == items[..i] + items[i + 1..] {
        WithoutAt(items, i);
      }
    }
  }

  lemma RecentIsDistinct(items: seq<string>, text: string)
    requires Distinct(items)
    ensures Distinct(Recent(items, text))
  {
    WithoutMembers(items, text);
    var kept := Without(items, text);
    forall j | 0 <= j < |kept| ensures kept[j] != text {
      assert kept[j] in kept;
    }
    DistinctFront(text, kept);
  }

  /** Truncating before an add does not change what is visible after it. */
  lemma TruncationCommutes(items: seq<string>, text: string)
    requires Distinct(items)
    ensures Truncated(Recent(Truncated(items), text)) == Truncated(Recent(items, text))
  {
    hide Without;
    if |items| > MAX_ITEMS && items[0] != text {
      var head := items[..MAX_ITEMS];
      assert Distinct(head);
      if i :| 0 <= i < MAX_ITEMS && items[i] == text {
        WithoutIsCut(items, text);
        WithoutIsCut(head, text);
        assert head[i] == text;
        CutPrefix(items, i);
      } else {
        LateWord(items, text);
      }
    }
  }

  lemma CutPrefix(items: seq<string>, i: nat)
    requires i < MAX_ITEMS < |items|
    ensures var head := items[..MAX_ITEMS];
            head[..i] + head[i + 1..] == (items[..i] + items[i + 1..])[..MAX_ITEMS - 1]
  {
  }

  /** A word beyond the limit, or not there at all, does not show up among the first items. */
  lemma LateWord(items: seq<string>, text: string)
    requires Distinct(items) && |items| > MAX_ITEMS && text !in items[..MAX_ITEMS]
    ensures Without(items[..MAX_ITEMS], text) == items[..MAX_ITEMS]
    ensures |Without(items, text)| >= MAX_ITEMS && Without(items, text)[..MAX_ITEMS] == items[..MAX_ITEMS]
  {
    hide Without;
    var head := items[..MAX_ITEMS];
    WithoutIsCut(head, text);
    WithoutIsCut(items, text);
    forall k | 0 <= k < MAX_ITEMS ensures items[k] != text {
      assert head[k] in head;
    }
  }

  /** An add that is carried out, or one that fails to reach the disk. */
  datatype Attempt = Attempt(text: string, written: bool)

  /** Running `Add` over a series of attempts leaves what `Stored` says. */
  method AddAll(adds: seq<Attempt>) returns (store: Store)
    requires forall i :: 0 <= i < |adds| ==> adds[i].text != ""
    ensures fresh(store) && store.items == Stored(adds)
  {
    store := new Store();
    var i := 0;
    while i < |adds|
      invariant 0 <= i <= |adds| && fresh(store) && store.items == Stored(adds[..i])
    {
      assert adds[..i + 1][..i] == adds[..i];
      StoredIsRecentPrefix(adds[..i]);
      var added := store.Add(adds[i].text, true, adds[i].written);
      i := i + 1;
    }
    assert adds[..i] == adds;
  }

  /** The file after a series of adds to an empty store. */
  function Stored(adds: seq<Attempt>): seq<string> {
    if adds == [] then []
    else
      var before, last := Stored(adds[..|adds| - 1]), adds[|adds| - 1];
      if last.written then Truncated(Recent(before, last.text)) else before
  }

  /** The same adds without a limit. */
  function Unlimited(adds: seq<Attempt>): seq<string> {
    if adds == [] then []
    else
      var before, last := Unlimited(adds[..|adds| - 1]), adds[|adds| - 1];
      if last.written then Recent(before, last.text) else before
  }

  lemma {:induction false} UnlimitedIsDistinct(adds: seq<Attempt>)
    ensures Distinct(Unlimited(adds))
  {
    if adds != [] {
      UnlimitedIsDistinct(adds[..|adds| - 1]);
      RecentIsDistinct(Unlimited(adds[..|adds| - 1]), adds[|adds| - 1].text);
    }
  }

  /** For every series of adds, the stored list is the first fifty items of the unlimited most-recent-first list, and
      has no duplicates: truncating at each step never changes what is visible. */
  lemma {:induction false} StoredIsRecentPrefix(adds: seq<Attempt>)
    ensures Stored(adds) == Truncated(Unlimited(adds))
    ensures Distinct(Stored(adds)) && |Stored(adds)| <= 50
    ensures Stored(adds) == Unlimited(adds)[..if |Unlimited(adds)| <= 50 then |Unlimited(adds)| else 50]
  {
    UnlimitedIsDistinct(adds);
    if adds != [] {
      var init, last := adds[..|adds| - 1], adds[|adds| - 1];
      StoredIsRecentPrefix(init);
      UnlimitedIsDistinct(init);
      TruncationCommutes(Unlimited(init), last.text);
    }
  }

  /** `unlimited` lists every text that was added, most recent add first. */
  lemma {:induction false} UnlimitedKeepsEverything(adds: seq<Attempt>, text: string)
    ensures text in Unlimited(adds) <==> exists i :: 0 <= i < |adds| && adds[i] == Attempt(text, true)
  {
    if adds != [] {
      var init, last := adds[..|adds| - 1], adds[|adds| - 1];
      UnlimitedKeepsEverything(init, text);
      WithoutMembers(Unlimited(init), last.text);
      if i :| 0 <= i < |init| && init[i] == Attempt(text, true) {
        assert adds[i] == Attempt(text, true);
      }
    }
  }

  /** The place of the last add of a text that reached the disk, or the number of adds when there is none. */
  function LastAdd(adds: seq<Attempt>, text: string): nat {
    if adds == [] then 0
    else if adds[|adds| - 1] == Attempt(text, true) then |adds| - 1
    else
      var before := LastAdd(adds[..|adds| - 1], text);
      if before == |adds| - 1 then |adds| else before
  }

  lemma {:induction false} LastAddIsLast(adds: seq<Attempt>, text: string)
    ensures var k := LastAdd(adds, text);
            && k <= |adds| && (k < |adds| ==> adds[k] == Attempt(text, true))
            && forall i :: 0 <= i < |adds| && i != k && adds[i] == Attempt(text, true) ==> i < k < |adds|
  {
    if adds != [] {
      LastAddIsLast(adds[..|adds| - 1], text);
    }
  }

  /** Every text was added, and the one in front was added after the other was added last. */
  predicate ByAdd(adds: seq<Attempt>, items: seq<string>) {
    && (forall i :: 0 <= i < |items| ==> LastAdd(adds, items[i]) < |adds|)
    && forall i, j :: 0 <= i < j < |items| ==> LastAdd(adds, items[j]) < LastAdd(adds, items[i])
  }

  /** Most recent first: of two texts in the list, the one in front was added after the other was added last. */
  lemma {:induction false} MostRecentFirst(adds: seq<Attempt>)
    ensures ByAdd(adds, Unlimited(adds))
  {
    hide Recent;
    if adds != [] {
      var init, last := adds[..|adds| - 1], adds[|adds| - 1];
      MostRecentFirst(init);
      UnlimitedIsDistinct(init);
      var items := Unlimited(init);
      if last.written {
        RecentByAdd(init, last.text, items);
      } else {
        forall x ensures LastAdd(init, x) < |init| ==> LastAdd(adds, x) == LastAdd(init, x) {
        }
      }
    }
  }

  /** Moving a text to the front keeps the order of the others. */
  lemma RecentByAdd(init: seq<Attempt>, text: string, items: seq<string>)
    requires Distinct(items) && ByAdd(init, items)
    ensures ByAdd(init + [Attempt(text, true)], Recent(items, text))
  {
    hide Without, LastAdd, ByAdd, Distinct;
    if items != [] && items[0] == text {
      assert items == [text] + items[1..];
      TailByAdd(init, items);
      FrontByAdd(init, text, items[1..], items);
    } else {
      var cut := CutAt(items, text);
      WithoutIsCut(items, text);
      var kept := if cut < |items| then items[..cut] + items[cut + 1..] else items;
      WithoutMembers(items, text);
      assert kept == Without(items, text);
      CutByAdd(init, items, cut);
      FrontByAdd(init, text, kept, [text] + kept);
    }
  }

  lemma CutByAdd(adds: seq<Attempt>, items: seq<string>, cut: nat)
    requires ByAdd(adds, items) && cut <= |items|
    ensures ByAdd(adds, if cut < |items| then items[..cut] + items[cut + 1..] else items)
  {
    hide LastAdd;
  }

  lemma TailByAdd(adds: seq<Attempt>, items: seq<string>)
    requires items != [] && ByAdd(adds, items) && Distinct(items)
    ensures ByAdd(adds, items[1..]) && items[0] !in items[1..]
  {
    hide LastAdd;
    forall i | 0 <= i < |items[1..]| ensures items[1..][i] != items[0] {
      assert items[1..][i] == items[i + 1];
    }
  }

  lemma AddedLast(init: seq<Attempt>, text: string, x: string)
    ensures var adds := init + [Attempt(text, true)];
            LastAdd(adds, text) == |init|
              && (x != text && LastAdd(init, x) < |init| ==> LastAdd(adds, x) == LastAdd(init, x))
  {
    assert (init + [Attempt(text, true)])[..|init|] == init;
  }

  lemma FrontByAdd(init: seq<Attempt>, text: string, kept: seq<string>, items: seq<string>)
    requires items == [text] + kept && ByAdd(init, kept) && text !in kept
    ensures ByAdd(init + [Attempt(text, true)], items)
  {
    hide LastAdd;
    var adds := init + [Attempt(text, true)];
    forall i | 0 <= i < |kept| ensures LastAdd(adds, kept[i]) == LastAdd(init, kept[i]) < |init| && kept[i] != text {
      assert kept[i] == items[i + 1] && kept[i] in kept;
      AddedLast(init, text, kept[i]);
    }
    AddedLast(init, text, text);
  }

  function CutAt(items: seq<string>, text: string): (i: nat)
    ensures i <= |items| && (i < |items| ==> items[i] == text) && (i == |items| ==> text !in items)
  {
    if items == [] || items[0] == text then 0 else 1 + CutAt(items[1..], text)
  }

  /** The same holds of the stored list, which is a prefix. */
  lemma StoredByAdd(adds: seq<Attempt>)
    ensures ByAdd(adds, Stored(adds))
  {
    MostRecentFirst(adds);
    StoredIsRecentPrefix(adds);
  }

  // ------------------------------------------------------------------------------------------------- a race in remove

  /** An add between `remove`'s read and its write is lost - unless it adds the removed text itself, or the text that is
      the newest one anyway once the removed text is gone. */
  lemma RemoveKeepsAddIff(items: seq<string>, removed: string, added: string)
    requires Distinct(items) && |items| <= MAX_ITEMS && removed in items
    ensures Without(items, removed) == Without(Truncated(Recent(items, added)), removed) <==>
            added == removed || (Without(items, removed) != [] && Without(items, removed)[0] == added)
  {
    var r := Recent(items, added);
    WithoutMembers(items, added);
    WithoutMembers(items, removed);
    WithoutIsCut(items, added);
    WithoutIsCut(items, removed);
    WithoutCounts(items, removed);
    RecentIsDistinct(items, added);
    if added == removed {
      RemovedAgain(items, removed);
    } else if items[0] != added {
      AddedInFront(items, removed, added);
    } else {
      assert Without(items, removed)[0] == added;
    }
  }

  /** A lost add: "a" is removed while "b" is added. */
  lemma RemoveLosesAnAdd() returns (items: seq<string>, removed: string, added: string)
    ensures Distinct(items) && |items| <= MAX_ITEMS && removed in items && added != removed
    ensures added in Without(Truncated(Recent(items, added)), removed) && added !in Without(items, removed)
  {
    items, removed, added := ["a"], "a", "b";
    assert "b"[0] != "a"[0];
    WithoutMembers(items, removed);
    WithoutMembers(items, added);
    WithoutMembers(Recent(items, added), removed);
    assert Recent(items, added)[0] == added;
    WithoutCounts(items, added);
  }

  lemma RemovedAgain(items: seq<string>, text: string)
    requires Distinct(items) && |items| <= MAX_ITEMS && text in items
    ensures Without(Truncated(Recent(items, text)), text) == Without(items, text)
  {
    if items[0] != text {
      WithoutCounts(items, text);
      WithoutMembers(items, text);
      var rest := Without(items, text);
      assert Truncated(Recent(items, text)) == [text] + rest;
      WithoutIsCut(rest, text);
      assert ([text] + rest)[1..] == rest;
    }
  }

  lemma AddedInFront(items: seq<string>, removed: string, added: string)
    requires Distinct(items) && |items| <= MAX_ITEMS && removed in items && added != removed && items[0] != added
    ensures var visible := Without(Truncated(Recent(items, added)), removed);
            && visible != [] && visible[0] == added
            && (Without(items, removed) == visible <==>
                Without(items, removed) != [] && Without(items, removed)[0] == added)
  {
    var front := Truncated(Recent(items, added));
    assert front[0] == added;
    assert front == [added] + front[1..];
    var kept := Without(items, removed);
    if kept != [] && kept[0] == added {
      SecondBecomesFirst(items, removed, added);
    }
  }

  /** When the added text comes right behind the removed one at the top, moving it to the front changes nothing else. */
  lemma SecondBecomesFirst(items: seq<string>, removed: string, added: string)
    requires Distinct(items) && |items| <= MAX_ITEMS && removed in items && added != removed && items[0] != added
    requires Without(items, removed) != [] && Without(items, removed)[0] == added
    ensures Without(Truncated(Recent(items, added)), removed) == Without(items, removed)
  {
    hide Without, Distinct, Recent;
    RemovedIsFirst(items, removed, added);
    SecondMoves(items, removed, added);
    var rest := items[2..];
    var front := [added, removed] + rest;
    RecentIsDistinct(items, added);
    WithoutIsCut(front, removed);
    assert front[1] == removed;
    assert front[..1] + front[2..] == [added] + rest;
  }

  lemma SecondMoves(items: seq<string>, first: string, second: string)
    requires Distinct(items) && |items| >= 2 && items[0] == first && items[1] == second && first != second
    ensures Recent(items, second) == [second, first] + items[2..]
  {
    hide Without, Distinct;
    WithoutAt(items, 1);
    assert items[..1] + items[2..] == [first] + items[2..];
  }

  lemma RemovedIsFirst(items: seq<string>, removed: string, added: string)
    requires Distinct(items) && removed in items && added != removed && items[0] != added
    requires Without(items, removed) != [] && Without(items, removed)[0] == added
    ensures |items| >= 2 && items[0] == removed && items[1] == added && Without(items, removed) == [added] + items[2..]
  {
    WithoutIsCut(items, removed);
    var i :| 0 <= i < |items| && items[i] == removed;
    assert i == 0;
    assert items[..0] + items[1..] == items[1..] == [items[1]] + items[2..];
  }
}
