/**
 * The dashboard's computed values: the export file name, the key-metric progress bars, the
 * quality stars, the lists it shows, and the save button's status transitions.
 */
module PerformanceDashboard {
  import opened Strings
  import opened Types
  import opened JsMath

  /**
   * `title.replace(/\s+/g, '_')`: every maximal run of whitespace becomes one underscore.
   * The result has no whitespace and is never longer than the title.
   */
  function ExportFilename(title: string): (name: string)
    ensures NoSpace(name)
    ensures |name| <= |title|
    decreases |title|
  {
    if title == [] then ""
    else if IsSpace(title[0]) then
      var rest := ExportFilename(TrimStart(title));
      NoSpaceCons('_', rest);
      "_" + rest
    else
      var rest := ExportFilename(title[1..]);
      NoSpaceCons(title[0], rest);
      [title[0]] + rest
  }

  /** A non-space character in front of a string without whitespace keeps it without whitespace. */
  lemma NoSpaceCons(c: char, s: string)
    requires !IsSpace(c) && NoSpace(s)
    ensures NoSpace([c] + s)
  {
    assert forall i :: 1 <= i < |s| + 1 ==> ([c] + s)[i] == s[i - 1];
  }

  /** Trimming the front of a concatenation stops inside the first part unless it is all whitespace. */
  lemma {:induction false} TrimStartAppend(a: string, b: string)
    ensures !AllSpace(a) ==> TrimStart(a + b) == TrimStart(a) + b
    ensures AllSpace(a) ==> TrimStart(a + b) == TrimStart(b)
  {
    if a == [] {
      assert a + b == b;
    } else {
      assert (a + b)[0] == a[0] && (a + b)[1..] == a[1..] + b;
      TrimStartAppend(a[1..], b);
      AllSpaceCons(a);
    }
  }

  /** A non-empty string is all whitespace exactly when its head is and its tail is. */
  lemma AllSpaceCons(a: string)
    requires a != []
    ensures AllSpace(a) <==> IsSpace(a[0]) && AllSpace(a[1..])
  {
    assert forall i :: 1 <= i < |a| ==> a[i] == a[1..][i - 1];
  }

  /**
   * Associativity of concatenation, as a fact of its own: asserted inline among the
   * whitespace quantifiers of the lemmas below it sends the solver searching far too long.
   */
  lemma Concat3(x: string, y: string, z: string)
    ensures x + (y + z) == x + y + z
  {
  }

  /** A title made only of whitespace becomes a single underscore. */
  lemma BlankTitle(w: string)
    requires w != [] && AllSpace(w)
    ensures ExportFilename(w) == "_"
  {
    TrimStartAppend(w, []);
    assert w + [] == w;
  }

  /**
   * The name of a concatenation is the concatenation of the names, unless a whitespace run
   * straddles the join.
   */
  lemma {:induction false} FilenameAppend(a: string, b: string)
    requires a == [] || b == [] || !IsSpace(a[|a| - 1]) || !IsSpace(b[0])
    ensures ExportFilename(a + b) == ExportFilename(a) + ExportFilename(b)
    decreases |a|
  {
    if a == [] {
      assert a + b == b;
    } else if b == [] {
      assert a + b == a;
    } else if !IsSpace(a[0]) {
      assert (a + b)[0] == a[0] && (a + b)[1..] == a[1..] + b;
      FilenameAppend(a[1..], b);
      Concat3([a[0]], ExportFilename(a[1..]), ExportFilename(b));
    } else {
      TrimStartAppend(a, b);
      if AllSpace(a) {
        BlankTitle(a);
        assert TrimStart(b) == b;
      } else {
        var t := TrimStart(a);
        assert t != [] && t[|t| - 1] == a[|a| - 1];
        FilenameAppend(t, b);
        Concat3("_", ExportFilename(t), ExportFilename(b));
      }
    }
  }

  /** One whitespace run between two words becomes exactly one underscore. */
  lemma RunBecomesUnderscore(a: string, w: string, b: string)
    requires a == [] || !IsSpace(a[|a| - 1])
    requires w != [] && AllSpace(w)
    requires b == [] || !IsSpace(b[0])
    ensures ExportFilename(a + w + b) == ExportFilename(a) + "_" + ExportFilename(b)
  {
    assert (w + b)[0] == w[0];
    FilenameAppend(w, b);
    BlankTitle(w);
    FilenameAppend(a, w + b);
    Concat3(ExportFilename(a), "_", ExportFilename(b));
    Concat3(a, w, b);
  }

  /** A title without whitespace is its own file name. */
  lemma {:induction false} FilenameOfPlainTitle(title: string)
    requires NoSpace(title)
    ensures ExportFilename(title) == title
  {
    if title != [] {
      assert title == [title[0]] + title[1..];
      FilenameOfPlainTitle(title[1..]);
    }
  }

  /** What a `ProgressBar` renders from its percentage, number formatting aside. */
  datatype BarView = BarView(prefix: string, textClass: string, barClass: string, width: real)

  /**
   * A key metric's bar: non-negative changes are positive (so zero shows `+0%`), and the bar
   * width is the magnitude capped at 100.
   */
  function ProgressBar(percentage: real): (v: BarView)
    ensures v.prefix == "+" <==> percentage >= 0.0
    ensures v.prefix == "" <==> percentage < 0.0
    ensures (v.barClass == "bg-green-600") <==> percentage >= 0.0
    ensures (v.textClass == "text-red-600") <==> percentage < 0.0
    ensures percentage >= 0.0 ==> v.textClass == "text-gray-800"
    ensures percentage < 0.0 ==> v.barClass == "bg-red-500"
    ensures 0.0 <= v.width <= 100.0
    ensures Abs(percentage) <= 100.0 ==> v.width == Abs(percentage)
    ensures Abs(percentage) > 100.0 ==> v.width == 100.0
  {
    var positive := percentage >= 0.0;
    var magnitude := Abs(percentage);
    var clampedLow := if magnitude > 0.0 then magnitude else 0.0;
    BarView(
      if positive then "+" else "",
      if positive then "text-gray-800" else "text-red-600",
      if positive then "bg-green-600" else "bg-red-500",
      if clampedLow < 100.0 then clampedLow else 100.0)
  }

  /** The five stars of a quality rating: star `k` (from 1) is filled when `k <= rating`. */
  function Stars(rating: real): (filled: seq<bool>)
    ensures |filled| == 5
  {
    seq(5, i => (i + 1) as real <= rating)
  }

  /** How many stars are filled. */
  function FilledCount(stars: seq<bool>): (n: nat)
    ensures n <= |stars|
    ensures n == |stars| <==> forall i :: 0 <= i < |stars| ==> stars[i]
  {
    if stars == [] then 0 else (if stars[0] then 1 else 0) + FilledCount(stars[1..])
  }

  /** The filled stars come first: a filled star is never preceded by an empty one. */
  lemma StarsArePrefix(rating: real, i: nat, j: nat)
    requires i < j < 5 && Stars(rating)[j]
    ensures Stars(rating)[i]
  {
  }

  /** A list whose first `n` entries are exactly the filled ones counts `n`. */
  lemma {:induction false} CountOfFilledPrefix(stars: seq<bool>, n: nat)
    requires n <= |stars| && forall i :: 0 <= i < |stars| ==> (stars[i] <==> i < n)
    ensures FilledCount(stars) == n
  {
    if stars != [] {
      CountOfFilledPrefix(stars[1..], if n == 0 then 0 else n - 1);
    }
  }

  /** A rating from `n` up to but not including `n + 1` (within 0..5) fills exactly `n` stars. */
  lemma StarsCount(rating: real, n: nat)
    requires n <= 5 && n as real <= rating && (n < 5 ==> rating < (n + 1) as real)
    ensures FilledCount(Stars(rating)) == n
  {
    CountOfFilledPrefix(Stars(rating), n);
  }

  /** A rating in its documented range of 1 to 5 fills at least one star, and all five only at 5. */
  lemma DocumentedRatingStars(q: QualityRating)
    requires InDocumentedRange(q)
    ensures 1 <= FilledCount(Stars(q.rating))
    ensures FilledCount(Stars(q.rating)) == 5 <==> q.rating == 5.0
  {
    var stars := Stars(q.rating);
    assert stars[0];
    assert stars[4] <==> q.rating == 5.0;
  }

  /** `financialRatios.slice(0, 4)`: the first four ratios, in order, or all when fewer. */
  function ShownRatios(ratios: seq<FinancialRatio>): (shown: seq<FinancialRatio>)
    ensures |shown| == if |ratios| < 4 then |ratios| else 4
    ensures forall i :: 0 <= i < |shown| ==> shown[i] == ratios[i]
  {
    if |ratios| < 4 then ratios else ratios[..4]
  }

  /** One row of the pros and cons panel. */
  datatype Point = Pro(text: string) | Con(text: string)

  /** The pros in their order, then the cons in theirs. */
  function ProsAndCons(pros: seq<string>, cons: seq<string>): (rows: seq<Point>)
    ensures |rows| == |pros| + |cons|
    ensures forall i :: 0 <= i < |pros| ==> rows[i] == Pro(pros[i])
    ensures forall j :: 0 <= j < |cons| ==> rows[|pros| + j] == Con(cons[j])
  {
    seq(|pros|, i requires 0 <= i < |pros| => Pro(pros[i])) + seq(|cons|, j requires 0 <= j < |cons| => Con(cons[j]))
  }

  /** No con is listed before a pro. */
  lemma ProsPrecedeCons(pros: seq<string>, cons: seq<string>, i: nat, j: nat)
    requires i < j < |pros| + |cons| && ProsAndCons(pros, cons)[i].Con?
    ensures ProsAndCons(pros, cons)[j].Con?
  {
    var rows := ProsAndCons(pros, cons);
    assert rows[|pros| + (j - |pros|)] == Con(cons[j - |pros|]);
  }

  /** The save button's status. */
  datatype SaveStatus = Idle | Saved | SaveError

  /** The button caption for each status. */
  function SaveLabel(status: SaveStatus): (caption: string)
    ensures status == Saved ==> caption == "Saved!"
    ensures status == SaveError ==> caption == "Failed"
    ensures status == Idle ==> caption == "Save to DB"
  {
    match status
    case Saved => "Saved!"
    case SaveError => "Failed"
    case Idle => "Save to DB"
  }

  /** Different statuses are always told apart by their captions. */
  lemma SaveLabelsDistinct(a: SaveStatus, b: SaveStatus)
    requires a != b
    ensures SaveLabel(a) != SaveLabel(b)
  {
    assert "Saved!"[0] == 'S' && "Failed"[0] == 'F' && "Save to DB"[0] == 'S';
    assert "Saved!"[4] == 'd' && "Save to DB"[4] == ' ';
  }

  /** The save button's state. */
  class SaveButton {
    var isSaving: bool
    var saveStatus: SaveStatus

    constructor ()
      ensures !isSaving && saveStatus == Idle
    {
      isSaving, saveStatus := false, Idle;
    }

    /** The button is disabled while a save is running. */
    predicate Disabled()
      reads this
    {
      isSaving
    }

    /** The synchronous start of `handleSaveToDb`. */
    method BeginSave()
      modifies this
      ensures isSaving && saveStatus == Idle
      ensures Disabled()
    {
      isSaving := true;
      saveStatus := Idle;
    }

    /** The rest of `handleSaveToDb`: success or error by how the save settled, and saving ends. */
    method FinishSave(resolved: bool)
      modifies this
      ensures !isSaving && !Disabled()
      ensures resolved ==> saveStatus == Saved
      ensures !resolved ==> saveStatus == SaveError
    {
      if resolved {
        saveStatus := Saved;
      } else {
        saveStatus := SaveError;
      }
      isSaving := false;
    }

    /** The timer set after a success puts the caption back to idle. */
    method ResetStatus()
      modifies this
      ensures saveStatus == Idle && isSaving == old(isSaving)
    {
      saveStatus := Idle;
    }
  }
}
