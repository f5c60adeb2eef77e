/**
 The filter of a task list and the text that a cursor keeps of it. The service stores a hash of that
 text; equal hashes are taken to mean equal texts.
 */
module Filters {
  import opened Common
  import opened Tables
  import Domain

  datatype Task = Task(id: string, createdAt: int, status: Domain.TaskStatus, kind: string, publisherId: string)

  /** As a request states it: any texts, in any order, with repetitions. */
  datatype Filter = Filter(statuses: seq<string>, kind: string, publisherId: string)

  function StatusText(s: Domain.TaskStatus): string {
    match s
    case Draft => "draft"
    case Open => "open"
    case Claimed => "claimed"
    case InProgress => "in_progress"
    case Completed => "completed"
    case TaskCancelled => "cancelled"
    case TaskExpired => "expired"
  }

  predicate Matches(t: Task, f: Filter) {
    && (f.statuses == [] || StatusText(t.status) in f.statuses)
    && (f.kind == "" || t.kind == f.kind)
    && (f.publisherId == "" || t.publisherId == f.publisherId)
  }

  // ------------------------------------------------------------------ the text

  function Place(x: string, sorted: seq<string>): seq<string>
    decreases |sorted|
  {
    if sorted == [] || !Less(sorted[0], x) then [x] + sorted else [sorted[0]] + Place(x, sorted[1..])
  }

  function SortTexts(s: seq<string>): seq<string>
    decreases |s|
  {
    if s == [] then [] else Place(s[|s| - 1], SortTexts(s[..|s| - 1]))
  }

  function JoinAll(parts: seq<string>, sep: char): string
    decreases |parts|
  {
    if parts == [] then "" else if |parts| == 1 then parts[0] else Join(parts[0], sep, JoinAll(parts[1..], sep))
  }

  /** Sorted statuses with commas between them, then type and publisher, each after a NUL. */
  function DigestText(f: Filter): string {
    Join(JoinAll(SortTexts(f.statuses), ','), '\0', Join(f.kind, '\0', f.publisherId))
  }

  // -------------------------------------------------------------------- sorting

  lemma {:induction false} PlacesCommute(x: string, y: string, s: seq<string>)
    ensures Place(x, Place(y, s)) == Place(y, Place(x, s))
    decreases |s|
  {
    LessTotal(x, y);
    if s != [] {
      LessTotal(s[0], x);
      LessTotal(s[0], y);
      if Less(s[0], x) && Less(s[0], y) {
        PlacesCommute(x, y, s[1..]);
      } else if Less(s[0], x) && Less(x, y) {
        LessTransitive(s[0], x, y);
      } else if Less(s[0], y) && Less(y, x) {
        LessTransitive(s[0], y, x);
      }
    }
  }

  lemma {:induction false} PlaceAdds(x: string, s: seq<string>)
    ensures multiset(Place(x, s)) == multiset(s) + multiset{x}
    decreases |s|
  {
    if s != [] && Less(s[0], x) {
      PlaceAdds(x, s[1..]);
    }
    assert s != [] ==> s == [s[0]] + s[1..];
  }

  lemma {:induction false} SortKeeps(s: seq<string>)
    ensures multiset(SortTexts(s)) == multiset(s)
    decreases |s|
  {
    if s != [] {
      var n := |s| - 1;
      SortKeeps(s[..n]);
      PlaceAdds(s[n], SortTexts(s[..n]));
      assert s == s[..n] + [s[n]];
    }
  }

  lemma {:induction false} SortAny(s: seq<string>, i: nat)
    requires i < |s|
    ensures SortTexts(s) == Place(s[i], SortTexts(Without(s, i)))
    decreases |s|
  {
    var n := |s| - 1;
    if i == n {
      assert Without(s, i) == s[..n];
    } else {
      SortAny(s[..n], i);
      assert Without(s, i)[..n - 1] == Without(s[..n], i);
      PlacesCommute(s[i], s[n], SortTexts(Without(s[..n], i)));
    }
  }

  lemma {:induction false} SortIgnoresOrder(a: seq<string>, b: seq<string>)
    requires multiset(a) == multiset(b)
    ensures SortTexts(a) == SortTexts(b)
    decreases |a|
  {
    if a == [] {
      assert |multiset(b)| == 0;
    } else {
      var n := |a| - 1;
      var i := Cancel(a, b, a[n]);
      SortIgnoresOrder(a[..n], Without(b, i));
      SortAny(b, i);
    }
  }

  /** Two lists sort to the same one exactly when they hold the same texts equally often. */
  lemma SortIff(a: seq<string>, b: seq<string>)
    ensures SortTexts(a) == SortTexts(b) <==> multiset(a) == multiset(b)
  {
    SortKeeps(a);
    SortKeeps(b);
    if multiset(a) == multiset(b) {
      SortIgnoresOrder(a, b);
    }
  }

  lemma SortMembers(s: seq<string>)
    ensures forall x :: x in SortTexts(s) <==> x in s
  {
    SortKeeps(s);
    forall x ensures x in SortTexts(s) <==> x in s {
      assert x in SortTexts(s) <==> x in multiset(SortTexts(s));
      assert x in s <==> x in multiset(s);
    }
  }

  // ------------------------------------------------------------------ splitting

  /** The pieces of a text between separators: at least one. */
  function Split(text: string, sep: char): (pieces: seq<string>)
    ensures pieces != []
    decreases |text|
  {
    if text == "" then [""]
    else
      var rest := Split(text[1..], sep);
      if text[0] == sep then [""] + rest else [[text[0]] + rest[0]] + rest[1..]
  }

  /** The pieces of a list of texts, each split in turn. */
  function Pieces(parts: seq<string>, sep: char): (pieces: seq<string>)
    ensures pieces != []
    decreases |parts|
  {
    if parts == [] then [""]
    else if |parts| == 1 then Split(parts[0], sep)
    else Split(parts[0], sep) + Pieces(parts[1..], sep)
  }

  /** What one more character in front does to the pieces. */
  function InFront(c: char, pieces: seq<string>, sep: char): seq<string>
    requires pieces != []
  {
    if c == sep then [""] + pieces else [[c] + pieces[0]] + pieces[1..]
  }

  lemma SplitInFront(c: char, text: string, sep: char)
    ensures Split([c] + text, sep) == InFront(c, Split(text, sep), sep)
  {
    assert ([c] + text)[1..] == text;
  }

  lemma InFrontOfTwo(c: char, first: seq<string>, second: seq<string>, sep: char)
    requires first != []
    ensures InFront(c, first + second, sep) == InFront(c, first, sep) + second
  {
  }

  lemma {:induction false} SplitJoined(a: string, b: string, sep: char)
    ensures Split(Join(a, sep, b), sep) == Split(a, sep) + Split(b, sep)
    decreases |a|
  {
    if a == "" {
      SplitInFront(sep, b, sep);
      assert Join(a, sep, b) == [sep] + b;
    } else {
      SplitJoined(a[1..], b, sep);
      SplitInFront(a[0], Join(a[1..], sep, b), sep);
      SplitInFront(a[0], a[1..], sep);
      assert Join(a, sep, b) == [a[0]] + Join(a[1..], sep, b) && a == [a[0]] + a[1..];
      InFrontOfTwo(a[0], Split(a[1..], sep), Split(b, sep), sep);
    }
  }

  lemma {:induction false} SplitJoinAll(parts: seq<string>, sep: char)
    ensures Split(JoinAll(parts, sep), sep) == Pieces(parts, sep)
    decreases |parts|
  {
    if |parts| > 1 {
      SplitJoinAll(parts[1..], sep);
      SplitJoined(parts[0], JoinAll(parts[1..], sep), sep);
    }
  }

  lemma {:induction false} JoinSplit(text: string, sep: char)
    ensures JoinAll(Split(text, sep), sep) == text
    decreases |text|
  {
    if text != "" {
      var rest := Split(text[1..], sep);
      JoinSplit(text[1..], sep);
      if text[0] == sep {
        assert Split(text, sep)[1..] == rest;
      } else {
        assert Split(text, sep)[1..] == rest[1..];
      }
      assert text == [text[0]] + text[1..];
    }
  }

  /** Two lists join to the same text exactly when their pieces are the same. */
  lemma JoinAllIff(a: seq<string>, b: seq<string>, sep: char)
    ensures JoinAll(a, sep) == JoinAll(b, sep) <==> Pieces(a, sep) == Pieces(b, sep)
  {
    SplitJoinAll(a, sep);
    SplitJoinAll(b, sep);
    JoinSplit(JoinAll(a, sep), sep);
    JoinSplit(JoinAll(b, sep), sep);
  }

  predicate Free(parts: seq<string>, c: char) {
    forall i :: 0 <= i < |parts| ==> c !in parts[i]
  }

  lemma {:induction false} SplitFree(text: string, sep: char)
    requires sep !in text
    ensures Split(text, sep) == [text]
    decreases |text|
  {
    if text != "" {
      SplitFree(text[1..], sep);
      assert text[0] in text && text == [text[0]] + text[1..];
    }
  }

  lemma {:induction false} PiecesFree(parts: seq<string>, sep: char)
    requires Free(parts, sep)
    ensures Pieces(parts, sep) == if parts == [] then [""] else parts
    decreases |parts|
  {
    if parts != [] {
      SplitFree(parts[0], sep);
      PiecesFree(parts[1..], sep);
      assert parts == [parts[0]] + parts[1..];
    }
  }

  lemma {:induction false} JoinAllFree(parts: seq<string>, sep: char, c: char)
    requires Free(parts, c) && c != sep
    ensures c !in JoinAll(parts, sep)
    decreases |parts|
  {
    if |parts| > 1 {
      JoinAllFree(parts[1..], sep, c);
    }
  }

  lemma SortFree(s: seq<string>, c: char)
    requires Free(s, c)
    ensures Free(SortTexts(s), c)
  {
    SortMembers(s);
    forall i | 0 <= i < |SortTexts(s)| ensures c !in SortTexts(s)[i] {
      assert SortTexts(s)[i] in SortTexts(s);
      var j :| 0 <= j < |s| && s[j] == SortTexts(s)[i];
    }
  }

  // ------------------------------------------------------------ when texts agree

  /** No NUL in statuses and type, as the query refuses it in any text. */
  predicate NulFree(f: Filter) {
    Free(f.statuses, '\0') && '\0' !in f.kind
  }

  /**
   Two filters have the same text if and only if type and publisher are the same and their sorted
   statuses have the same pieces between commas.
   */
  lemma TextsAgreeIff(f: Filter, g: Filter)
    requires NulFree(f) && NulFree(g)
    ensures DigestText(f) == DigestText(g) <==>
              && f.kind == g.kind && f.publisherId == g.publisherId
              && Pieces(SortTexts(f.statuses), ',') == Pieces(SortTexts(g.statuses), ',')
  {
    var a, b := SortTexts(f.statuses), SortTexts(g.statuses);
    SortFree(f.statuses, '\0');
    SortFree(g.statuses, '\0');
    JoinAllFree(a, ',', '\0');
    JoinAllFree(b, ',', '\0');
    JoinedApart(JoinAll(a, ','), Join(f.kind, '\0', f.publisherId), JoinAll(b, ','), Join(g.kind, '\0', g.publisherId), '\0');
    JoinedApart(f.kind, f.publisherId, g.kind, g.publisherId, '\0');
    JoinAllIff(a, b, ',');
  }

  /** No status at all, or only the empty one: the text does not tell them apart. */
  predicate Blank(statuses: seq<string>) {
    statuses == [] || statuses == [""]
  }

  /**
   Without commas in the statuses: exactly when type and publisher are the same and so are the
   statuses with their repetitions, or neither names any.
   */
  lemma PlainTextsAgreeIff(f: Filter, g: Filter)
    requires NulFree(f) && NulFree(g) && Free(f.statuses, ',') && Free(g.statuses, ',')
    ensures DigestText(f) == DigestText(g) <==>
              && f.kind == g.kind && f.publisherId == g.publisherId
              && (multiset(f.statuses) == multiset(g.statuses) || (Blank(f.statuses) && Blank(g.statuses)))
  {
    TextsAgreeIff(f, g);
    SortFree(f.statuses, ',');
    SortFree(g.statuses, ',');
    PiecesFree(SortTexts(f.statuses), ',');
    PiecesFree(SortTexts(g.statuses), ',');
    SortIff(f.statuses, g.statuses);
    BlankSorts(f.statuses);
    BlankSorts(g.statuses);
  }

  lemma BlankSorts(s: seq<string>)
    ensures SortTexts(s) == [] <==> s == []
    ensures SortTexts(s) == [""] <==> s == [""]
  {
    SortKeeps(s);
    assert |SortTexts(s)| == |multiset(SortTexts(s))| == |s|;
    if |s| == 1 {
      assert SortTexts(s) == Place(s[0], SortTexts(s[..0])) == s;
    }
  }

  // ------------------------------------------------------- what the text confuses

  ghost predicate SameRows(f: Filter, g: Filter) {
    forall t :: Matches(t, f) <==> Matches(t, g)
  }

  /** Only statuses that tasks have. */
  ghost predicate Known(f: Filter) {
    forall i :: 0 <= i < |f.statuses| ==> exists s :: StatusText(s) == f.statuses[i]
  }

  lemma StatusIsPlain(s: Domain.TaskStatus)
    ensures ',' !in StatusText(s) && '\0' !in StatusText(s) && StatusText(s) != ""
  {
  }

  lemma KnownIsPlain(f: Filter)
    requires Known(f)
    ensures Free(f.statuses, ',') && Free(f.statuses, '\0') && "" !in f.statuses
  {
    forall i | 0 <= i < |f.statuses| ensures ',' !in f.statuses[i] && '\0' !in f.statuses[i] && f.statuses[i] != "" {
      var s :| StatusText(s) == f.statuses[i];
      StatusIsPlain(s);
    }
  }

  /** Of filters by statuses that tasks have, the same text means the same statuses, and so the same rows. */
  lemma KnownTextsAgreeIff(f: Filter, g: Filter)
    requires Known(f) && Known(g) && '\0' !in f.kind && '\0' !in g.kind
    ensures DigestText(f) == DigestText(g) <==>
              f.kind == g.kind && f.publisherId == g.publisherId && multiset(f.statuses) == multiset(g.statuses)
    ensures DigestText(f) == DigestText(g) ==> SameRows(f, g)
  {
    KnownIsPlain(f);
    KnownIsPlain(g);
    PlainTextsAgreeIff(f, g);
    assert Blank(f.statuses) ==> f.statuses == [] by {
      assert f.statuses == [""] ==> "" in f.statuses;
    }
    assert Blank(g.statuses) ==> g.statuses == [] by {
      assert g.statuses == [""] ==> "" in g.statuses;
    }
    if multiset(f.statuses) == multiset(g.statuses) {
      SameMembers(f.statuses, g.statuses);
    }
  }

  lemma SameMembers(a: seq<string>, b: seq<string>)
    requires multiset(a) == multiset(b)
    ensures forall x :: x in a <==> x in b
    ensures a == [] <==> b == []
  {
    forall x ensures x in a <==> x in b {
      assert x in a <==> x in multiset(a);
      assert x in b <==> x in multiset(b);
    }
    assert |multiset(a)| == |a| && |multiset(b)| == |b|;
  }

  /** Two statuses and the one text that joins them with a comma have the same filter text, but select different rows. */
  lemma MergedStatuses(f: Filter, a: Domain.TaskStatus, b: Domain.TaskStatus, t: Task)
    requires f.statuses == [StatusText(a), StatusText(b)] && Less(StatusText(a), StatusText(b))
    requires t.status == a && Matches(t, f)
    ensures var g := f.(statuses := [StatusText(a) + "," + StatusText(b)]);
            DigestText(f) == DigestText(g) && !Matches(t, g)
  {
    var x, y := StatusText(a), StatusText(b);
    var merged := [x + "," + y];
    LessTotal(x, y);
    assert f.statuses[..1] == [x] && SortTexts([x]) == Place(x, SortTexts([x][..0])) == [x];
    assert SortTexts(f.statuses) == Place(y, [x]) == [x] + Place(y, []) == [x, y];
    assert SortTexts(merged) == Place(merged[0], SortTexts(merged[..0])) == merged;
    assert JoinAll([x, y], ',') == Join(x, ',', JoinAll([y], ',')) == merged[0];
  }

  /** So have no status and the empty one: the first selects every status, the second none. */
  lemma NoStatusOrEmpty(f: Filter, t: Task)
    requires f.statuses == [] && Matches(t, f)
    ensures DigestText(f) == DigestText(f.(statuses := [""])) && !Matches(t, f.(statuses := [""]))
  {
    StatusIsPlain(t.status);
    BlankSorts([""]);
  }

  /** And naming a status once more selects the same rows with another text. */
  lemma RepeatedStatus(f: Filter, x: string)
    requires NulFree(f) && Free(f.statuses, ',') && x in f.statuses
    ensures SameRows(f, f.(statuses := f.statuses + [x])) && DigestText(f) != DigestText(f.(statuses := f.statuses + [x]))
  {
    var g := f.(statuses := f.statuses + [x]);
    PlainTextsAgreeIff(f, g);
    assert multiset(g.statuses)[x] == multiset(f.statuses)[x] + 1;
  }
}
