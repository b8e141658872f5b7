/** The chatbot's vector-store synchronisation: database rows are hashed, compared with the hashes the
    store already holds, and split into new, removed and updated ids; rows to (re)index are turned into
    document text with normalised white space. `md5` is a parameter: a digest function. */
module Retrieval {
  import opened Common

  /** A row of `Lectures` or `Courses` as the sync reads it: the id column, and every other selected
      column printed as `str` prints it. A column the query did not select is absent. */
  datatype Row = Row(id: int, fields: map<string, string>)

  /** `row.get(name, default)`. */
  function Field(r: Row, name: string, default: string): string {
    if name in r.fields then r.fields[name] else default
  }

  const CourseHashColumns: seq<string> := ["CourseName", "Descriptions", "Skills", "EstimatedDuration", "Difficulty", "AverageRating"]
  const LectureColumns: seq<string> := ["Title", "Description", "Content"]

  /** What `SELECT LectureID, Title, Description, Content FROM Lectures` yields besides the id. */
  predicate IsLectureRow(r: Row) {
    forall name :: name in r.fields ==> name in LectureColumns
  }

  /** `sep.join(parts)`. */
  function Join(sep: string, parts: seq<string>): string {
    if parts == [] then "" else if |parts| == 1 then parts[0] else parts[0] + (sep + Join(sep, parts[1..]))
  }

  /** The named columns of a row, "" for the absent ones. */
  function Columns(r: Row, names: seq<string>): (vs: seq<string>)
    ensures |vs| == |names|
    ensures forall i :: 0 <= i < |names| ==> vs[i] == Field(r, names[i], "")
  {
    if names == [] then [] else [Field(r, names[0], "")] + Columns(r, names[1..])
  }

  /** md5 of the named columns joined with "|". */
  function ColumnsHash(md5: string -> string, names: seq<string>, r: Row): string {
    md5(Join("|", Columns(r, names)))
  }

  /** `hash_course`. */
  function HashCourse(md5: string -> string, r: Row): string {
    ColumnsHash(md5, CourseHashColumns, r)
  }

  /** `hash_lectures` as written: it reads the six course columns, not the lecture's own. */
  function HashLecturesAsWritten(md5: string -> string, r: Row): string {
    ColumnsHash(md5, CourseHashColumns, r)
  }

  /** The lecture hash over the columns the lecture query selects: what the sync needs to see edits. */
  function HashLecture(md5: string -> string, r: Row): string {
    ColumnsHash(md5, LectureColumns, r)
  }

  ghost predicate Injective(md5: string -> string) {
    forall a, b :: md5(a) == md5(b) ==> a == b
  }

  /** No column value contains the join separator. */
  predicate SeparatorFree(r: Row, names: seq<string>, sep: char) {
    forall i :: 0 <= i < |names| ==> sep !in Field(r, names[i], "")
  }

  /** As written, every lecture row hashes to the digest of five bars, whatever its text. */
  lemma HashLecturesAsWrittenConstant(md5: string -> string, r: Row)
    requires IsLectureRow(r)
    ensures HashLecturesAsWritten(md5, r) == md5("|||||")
  {
    var vs := Columns(r, CourseHashColumns);
    forall i | 0 <= i < |CourseHashColumns| ensures vs[i] == "" {
      assert CourseHashColumns[i] !in LectureColumns;
    }
    assert vs == ["", "", "", "", "", ""];
    JoinBlanks(6);
    assert seq(6, _ => "") == vs;
    assert seq(5, _ => '|') == "|||||";
    assert Join("|", vs) == "|||||";
  }

  /** n empty strings joined with "|" give n - 1 bars. */
  lemma {:induction false} JoinBlanks(n: nat)
    requires n >= 1
    ensures Join("|", seq(n, _ => "")) == seq(n - 1, _ => '|')
  {
    var xs := seq(n, _ => "");
    if n >= 2 {
      JoinBlanks(n - 1);
      assert xs[1..] == seq(n - 1, _ => "");
      assert xs[0] + ("|" + Join("|", xs[1..])) == "|" + seq(n - 2, _ => '|');
      assert "|" + seq(n - 2, _ => '|') == seq(n - 1, _ => '|');
    }
  }

  /** Joining is injective on lists of one length whose items avoid the separator's first character. */
  lemma {:induction false} JoinInjective(sep: string, xs: seq<string>, ys: seq<string>)
    requires |sep| > 0 && |xs| == |ys|
    requires forall i :: 0 <= i < |xs| ==> sep[0] !in xs[i]
    requires forall i :: 0 <= i < |ys| ==> sep[0] !in ys[i]
    requires Join(sep, xs) == Join(sep, ys)
    ensures xs == ys
    decreases |xs|
  {
    if |xs| >= 2 {
      var j1, j2 := Join(sep, xs[1..]), Join(sep, ys[1..]);
      assert forall k :: 0 <= k < |xs[0]| ==> xs[0][k] != sep[0] by {
        forall k | 0 <= k < |xs[0]| ensures xs[0][k] != sep[0] {
          assert xs[0][k] in xs[0];
        }
      }
      assert forall k :: 0 <= k < |ys[0]| ==> ys[0][k] != sep[0] by {
        forall k | 0 <= k < |ys[0]| ensures ys[0][k] != sep[0] {
          assert ys[0][k] in ys[0];
        }
      }
      SplitAtSeparator(xs[0], sep + j1, ys[0], sep + j2, sep[0]);
      PrefixCancel(sep, j1, j2);
      JoinInjective(sep, xs[1..], ys[1..]);
      assert xs == [xs[0]] + xs[1..] && ys == [ys[0]] + ys[1..];
    }
  }

  /** With an injective digest and "|"-free values, two rows that differ in a hashed column hash differently. */
  lemma ColumnsHashDetectsEdits(md5: string -> string, names: seq<string>, r1: Row, r2: Row)
    requires Injective(md5)
    requires SeparatorFree(r1, names, '|') && SeparatorFree(r2, names, '|')
    requires exists i :: 0 <= i < |names| && Field(r1, names[i], "") != Field(r2, names[i], "")
    ensures ColumnsHash(md5, names, r1) != ColumnsHash(md5, names, r2)
  {
    var v1, v2 := Columns(r1, names), Columns(r2, names);
    var i :| 0 <= i < |names| && Field(r1, names[i], "") != Field(r2, names[i], "");
    assert v1[i] != v2[i];
    if ColumnsHash(md5, names, r1) == ColumnsHash(md5, names, r2) {
      JoinInjective("|", v1, v2);
    }
  }

  /** The corrected lecture hash changes when the title, description or content changes. */
  lemma HashLectureDetectsEdits(md5: string -> string, r1: Row, r2: Row)
    requires Injective(md5)
    requires SeparatorFree(r1, LectureColumns, '|') && SeparatorFree(r2, LectureColumns, '|')
    requires exists i :: 0 <= i < |LectureColumns| && Field(r1, LectureColumns[i], "") != Field(r2, LectureColumns[i], "")
    ensures HashLecture(md5, r1) != HashLecture(md5, r2)
  {
    ColumnsHashDetectsEdits(md5, LectureColumns, r1, r2);
  }

  /** `hash_course` changes when any of its six columns changes. */
  lemma HashCourseDetectsEdits(md5: string -> string, r1: Row, r2: Row)
    requires Injective(md5)
    requires SeparatorFree(r1, CourseHashColumns, '|') && SeparatorFree(r2, CourseHashColumns, '|')
    requires exists i :: 0 <= i < |CourseHashColumns| && Field(r1, CourseHashColumns[i], "") != Field(r2, CourseHashColumns[i], "")
    ensures HashCourse(md5, r1) != HashCourse(md5, r2)
  {
    ColumnsHashDetectsEdits(md5, CourseHashColumns, r1, r2);
  }

  // ---------------------------------------------------------------- document text

  /** Every white-space character is a blank, and no two of them are adjacent. */
  predicate WellSpaced(t: string) {
    forall i :: 0 <= i < |t| ==> (IsSpace(t[i]) ==> t[i] == ' ') && (IsSpace(t[i]) && i + 1 < |t| ==> !IsSpace(t[i + 1]))
  }

  /** `re.sub(r"\s+", " ", s)`: each run of white space becomes one blank. */
  function Collapse(s: string): (r: string)
    ensures (r == []) == (s == [])
    ensures r != [] ==> (IsSpace(r[0]) <==> IsSpace(s[0]))
    ensures WellSpaced(r)
    decreases |s|
  {
    if s == [] then []
    else if IsSpace(s[0]) then
      var rest := Collapse(TrimStart(s[1..]));
      assert forall i :: 0 < i < |" " + rest| ==> (" " + rest)[i] == rest[i - 1];
      " " + rest
    else
      var rest := Collapse(s[1..]);
      assert forall i :: 0 < i < |[s[0]] + rest| ==> ([s[0]] + rest)[i] == rest[i - 1];
      [s[0]] + rest
  }

  /** Trimming the front of `x + y` trims only `x` while `x` holds visible text. */
  lemma {:induction false} TrimStartVisible(x: string, y: string)
    requires TrimStart(x) != []
    ensures TrimStart(x + y) == TrimStart(x) + y
    decreases |x|
  {
    assert x != [];
    var xy := x + y;
    assert xy[0] == x[0];
    if IsSpace(x[0]) {
      assert xy[1..] == x[1..] + y;
      TrimStartVisible(x[1..], y);
    }
  }

  /** An all-white `x` is trimmed away in front of text that starts visible. */
  lemma {:induction false} TrimStartAllSpace(x: string, y: string)
    requires forall i :: 0 <= i < |x| ==> IsSpace(x[i])
    requires y == [] || !IsSpace(y[0])
    ensures TrimStart(x + y) == y
    decreases |x|
  {
    if x == [] {
      assert x + y == y;
    } else {
      var xy := x + y;
      assert xy[0] == x[0] && IsSpace(x[0]);
      assert xy[1..] == x[1..] + y;
      assert forall i :: 0 <= i < |x[1..]| ==> x[1..][i] == x[i + 1];
      TrimStartAllSpace(x[1..], y);
    }
  }

  /** A leading white-space run becomes one blank in front of the rest. */
  lemma CollapseLeadingRun(w: string, b: string)
    requires w != [] && forall i :: 0 <= i < |w| ==> IsSpace(w[i])
    requires b == [] || !IsSpace(b[0])
    ensures Collapse(w + b) == " " + Collapse(b)
  {
    var s := w + b;
    assert s[0] == w[0] && s[1..] == w[1..] + b;
    assert forall i :: 0 <= i < |w[1..]| ==> w[1..][i] == w[i + 1];
    TrimStartAllSpace(w[1..], b);
  }

  lemma SeqRegroup(h: string, x: string, y: string)
    ensures h + (x + " " + y) == (h + x) + " " + y
  {
  }

  /** A white-space run between visible text becomes exactly one blank, so normalisation keeps the
      words on either side apart. */
  lemma {:induction false} CollapseJoin(a: string, w: string, b: string)
    requires w != [] && forall i :: 0 <= i < |w| ==> IsSpace(w[i])
    requires a == [] || !IsSpace(a[|a| - 1])
    requires b == [] || !IsSpace(b[0])
    ensures Collapse(a + w + b) == Collapse(a) + " " + Collapse(b)
    decreases |a|, 1
  {
    if a == [] {
      assert a + w + b == w + b;
      CollapseLeadingRun(w, b);
    } else if IsSpace(a[0]) {
      CollapseJoinSpaceHead(a, w, b);
    } else {
      CollapseJoinVisibleHead(a, w, b);
    }
  }

  /** Trimming the front of a text that ends visibly keeps its last character. */
  lemma TrimStartKeepsLast(x: string)
    requires x != [] && !IsSpace(x[|x| - 1])
    ensures TrimStart(x) != [] && TrimStart(x)[|TrimStart(x)| - 1] == x[|x| - 1]
  {
    AllSpaceTrimStart(x);
  }

  /** A text opening with white space and holding something visible collapses the same before
      any run and tail. */
  lemma CollapseSpaceThenRun(a: string, w: string, b: string)
    requires a != [] && IsSpace(a[0]) && !IsSpace(a[|a| - 1])
    ensures Collapse(a + w + b) == " " + Collapse(TrimStart(a[1..]) + w + b)
  {
    var s := a + w + b;
    assert s[0] == a[0];
    TrimStartAfterHead(a, w, b);
  }

  /** Past the first character, trimming a text that ends visibly is unaffected by what follows it. */
  lemma TrimStartAfterHead(a: string, w: string, b: string)
    requires a != [] && IsSpace(a[0]) && !IsSpace(a[|a| - 1])
    ensures TrimStart((a + w + b)[1..]) == TrimStart(a[1..]) + w + b
  {
    var t := TrimStart(a[1..]);
    assert (a + w + b)[1..] == a[1..] + (w + b);
    assert a[1..][|a[1..]| - 1] == a[|a| - 1];
    TrimStartKeepsLast(a[1..]);
    TrimStartVisible(a[1..], w + b);
    assert t + (w + b) == t + w + b;
  }

  /** CollapseJoin when the text before the run opens with white space. */
  lemma {:induction false} CollapseJoinSpaceHead(a: string, w: string, b: string)
    requires w != [] && forall i :: 0 <= i < |w| ==> IsSpace(w[i])
    requires a != [] && IsSpace(a[0]) && !IsSpace(a[|a| - 1])
    requires b == [] || !IsSpace(b[0])
    ensures Collapse(a + w + b) == Collapse(a) + " " + Collapse(b)
    decreases |a|, 0
  {
    var t := TrimStart(a[1..]);
    TrimStartKeepsLast(a[1..]);
    CollapseSpaceThenRun(a, w, b);
    CollapseJoin(t, w, b);
    assert Collapse(a) == " " + Collapse(t);
    SeqRegroup(" ", Collapse(t), Collapse(b));
  }

  /** CollapseJoin when the text before the run opens with a visible character. */
  lemma {:induction false} CollapseJoinVisibleHead(a: string, w: string, b: string)
    requires w != [] && forall i :: 0 <= i < |w| ==> IsSpace(w[i])
    requires a != [] && !IsSpace(a[0]) && !IsSpace(a[|a| - 1])
    requires b == [] || !IsSpace(b[0])
    ensures Collapse(a + w + b) == Collapse(a) + " " + Collapse(b)
    decreases |a|, 0
  {
    var s := a + w + b;
    assert s[0] == a[0];
    var a' := a[1..];
    assert s[1..] == a' + w + b;
    assert a' == [] || a'[|a'| - 1] == a[|a| - 1];
    assert Collapse(s) == [a[0]] + Collapse(a' + w + b);
    CollapseJoin(a', w, b);
    assert Collapse(a) == [a[0]] + Collapse(a');
    SeqRegroup([a[0]], Collapse(a'), Collapse(b));
  }

  lemma WellSpacedSlice(t: string, a: int, b: int)
    requires WellSpaced(t) && 0 <= a <= b <= |t|
    ensures WellSpaced(t[a..b])
  {
    assert forall i :: 0 <= i < b - a ==> t[a..b][i] == t[a + i];
  }

  /** The text normalisation of both document builders: collapse, then `strip()`. */
  function Normalize(s: string): string {
    Trim(Collapse(s))
  }

  /** The non-white-space characters of a string, in order. */
  function Visible(s: string): string {
    if s == [] then [] else (if IsSpace(s[0]) then [] else [s[0]]) + Visible(s[1..])
  }

  lemma {:induction false} VisibleConcat(a: string, b: string)
    ensures Visible(a + b) == Visible(a) + Visible(b)
    decreases |a|
  {
    if a == [] {
      assert a + b == b;
    } else {
      assert (a + b)[0] == a[0] && (a + b)[1..] == a[1..] + b;
      VisibleConcat(a[1..], b);
      var head := if IsSpace(a[0]) then [] else [a[0]];
      assert Visible(a + b) == head + Visible(a[1..] + b);
      assert Visible(a) == head + Visible(a[1..]);
    }
  }

  lemma {:induction false} VisibleTrimStart(s: string)
    ensures Visible(TrimStart(s)) == Visible(s)
    decreases |s|
  {
    if s != [] && IsSpace(s[0]) {
      VisibleTrimStart(s[1..]);
    }
  }

  lemma {:induction false} VisibleTrimEnd(s: string)
    ensures Visible(TrimEnd(s)) == Visible(s)
    decreases |s|
  {
    if s != [] && IsSpace(s[|s| - 1]) {
      var init := s[..|s| - 1];
      VisibleTrimEnd(init);
      assert s == init + [s[|s| - 1]];
      VisibleConcat(init, [s[|s| - 1]]);
    }
  }

  lemma {:induction false} VisibleCollapse(s: string)
    ensures Visible(Collapse(s)) == Visible(s)
    decreases |s|
  {
    if s != [] {
      if IsSpace(s[0]) {
        var t := TrimStart(s[1..]);
        VisibleCollapse(t);
        VisibleTrimStart(s[1..]);
        assert (" " + Collapse(t))[1..] == Collapse(t);
      } else {
        VisibleCollapse(s[1..]);
        assert ([s[0]] + Collapse(s[1..]))[1..] == Collapse(s[1..]);
      }
    }
  }

  /** Normalising drops and merges white space only: the visible text is kept, in order. */
  lemma NormalizeKeepsVisibleText(s: string)
    ensures Visible(Normalize(s)) == Visible(s)
  {
    VisibleCollapse(s);
    VisibleTrimStart(Collapse(s));
    VisibleTrimEnd(TrimStart(Collapse(s)));
  }

  lemma {:induction false} CollapseWellSpacedIsIdentity(t: string)
    requires WellSpaced(t)
    ensures Collapse(t) == t
    decreases |t|
  {
    if t != [] {
      WellSpacedSlice(t, 1, |t|);
      CollapseWellSpacedIsIdentity(t[1..]);
      assert t == [t[0]] + t[1..];
    }
  }

  /** Document text is trimmed and holds no run of white space. */
  predicate CleanText(t: string) {
    WellSpaced(t) && (t == [] || (!IsSpace(t[0]) && !IsSpace(t[|t| - 1])))
  }

  /** Normalised text is well spaced and has no white space at either end. */
  lemma NormalizeClean(s: string)
    ensures CleanText(Normalize(s))
  {
    TrimKeepsWellSpaced(Collapse(s));
  }

  /** Trimming well-spaced text keeps it well spaced. */
  lemma TrimKeepsWellSpaced(c: string)
    requires WellSpaced(c)
    ensures WellSpaced(Trim(c))
  {
    var t := TrimStart(c);
    WellSpacedSlice(c, |c| - |t|, |c|);
    var r := TrimEnd(t);
    assert r == t[..|r|];
    WellSpacedSlice(t, 0, |r|);
  }

  /** Normalising normalised text changes nothing. */
  lemma NormalizeIdempotent(s: string)
    ensures Normalize(Normalize(s)) == Normalize(s)
  {
    var n := Normalize(s);
    NormalizeClean(s);
    CollapseWellSpacedIsIdentity(n);
  }

  /** The labelled parts of a lecture document, before joining. */
  function LectureParts(r: Row): seq<string> {
    ["Lecture Title: " + Field(r, "Title", "No title"),
     "Description: " + Field(r, "Description", "No description"),
     "Content: " + Field(r, "Content", "None")]
  }

  /** The labelled parts of a course document, before joining. */
  function CourseParts(r: Row): seq<string> {
    ["CourseName: " + Field(r, "CourseName", "No title"),
     "Descriptions: " + Field(r, "Descriptions", "No description"),
     "Skills: " + Field(r, "Skills", "None"),
     "EstimatedDuration (hours): " + Field(r, "EstimatedDuration", "Unknown"),
     "Difficulty: " + Field(r, "Difficulty", "Unknown"),
     "AverageRating: " + Field(r, "AverageRating", "0.00")]
  }

  /** The page text `convert_to_documents_lectures` builds for one row: trimmed, single-spaced, and
      with the visible characters of the joined parts in order. */
  function LectureText(r: Row): string {
    Normalize(Join(", ", LectureParts(r)))
  }

  /** A lecture's page text is clean and keeps the visible text of its joined parts. */
  lemma LectureTextClean(r: Row)
    ensures CleanText(LectureText(r))
    ensures Visible(LectureText(r)) == Visible(Join(", ", LectureParts(r)))
  {
    NormalizeClean(Join(", ", LectureParts(r)));
    NormalizeKeepsVisibleText(Join(", ", LectureParts(r)));
  }

  /** The page text `convert_to_documents` builds for one course row. */
  function CourseText(r: Row): string {
    Normalize(Join(", ", CourseParts(r)))
  }

  /** A course's page text is clean and keeps the visible text of its joined parts. */
  lemma CourseTextClean(r: Row)
    ensures CleanText(CourseText(r))
    ensures Visible(CourseText(r)) == Visible(Join(", ", CourseParts(r)))
  {
    NormalizeClean(Join(", ", CourseParts(r)));
    NormalizeKeepsVisibleText(Join(", ", CourseParts(r)));
  }

  datatype LectureDocument = LectureDocument(pageContent: string, lectureId: int, hash: string)
  datatype CourseDocument = CourseDocument(pageContent: string, courseId: int, skills: string,
                                           estimatedDuration: string, difficulty: string,
                                           averageRating: string, hash: string)

  /** The document `convert_to_documents_lectures` builds for one row, hashed with `hash_lectures`
      as written. */
  function LectureDocumentOf(md5: string -> string, r: Row): LectureDocument
  {
    LectureDocument(LectureText(r), r.id, HashLecturesAsWritten(md5, r))
  }

  /** The same document hashed with the lecture hash, so that its stored hash tracks its text. */
  function LectureDocumentOfCorrected(md5: string -> string, r: Row): LectureDocument
  {
    LectureDocument(LectureText(r), r.id, HashLecture(md5, r))
  }

  /** As written, every lecture document carries the same stored hash, whatever its text. */
  lemma LectureDocumentHashConstant(md5: string -> string, r1: Row, r2: Row)
    requires IsLectureRow(r1) && IsLectureRow(r2)
    ensures LectureDocumentOf(md5, r1).hash == LectureDocumentOf(md5, r2).hash == md5("|||||")
  {
    HashLecturesAsWrittenConstant(md5, r1);
    HashLecturesAsWrittenConstant(md5, r2);
  }

  /** Corrected, two lecture documents whose title, description or content differ carry different
      stored hashes. */
  lemma LectureDocumentCorrectedHashDetectsEdits(md5: string -> string, r1: Row, r2: Row)
    requires Injective(md5)
    requires SeparatorFree(r1, LectureColumns, '|') && SeparatorFree(r2, LectureColumns, '|')
    requires exists i :: 0 <= i < |LectureColumns| && Field(r1, LectureColumns[i], "") != Field(r2, LectureColumns[i], "")
    ensures LectureDocumentOfCorrected(md5, r1).hash != LectureDocumentOfCorrected(md5, r2).hash
  {
    HashLectureDetectsEdits(md5, r1, r2);
  }

  /** The document `convert_to_documents` builds for one course row: its text, its id, four metadata
      columns ("", "0" or "0.0" when absent) and its hash. */
  function CourseDocumentOf(md5: string -> string, r: Row): CourseDocument
  {
    CourseDocument(CourseText(r), r.id, Field(r, "Skills", ""), Field(r, "EstimatedDuration", "0"),
                   Field(r, "Difficulty", ""), Field(r, "AverageRating", "0.0"), HashCourse(md5, r))
  }

  /** `f` applied to each element, in order. */
  ghost function MapSeq<A, B>(f: A -> B, s: seq<A>): seq<B>
    decreases |s|
  {
    if s == [] then [] else MapSeq(f, s[..|s| - 1]) + [f(s[|s| - 1])]
  }

  lemma {:induction false} MapSeqAt<A, B>(f: A -> B, s: seq<A>)
    ensures |MapSeq(f, s)| == |s|
    ensures forall i :: 0 <= i < |s| ==> MapSeq(f, s)[i] == f(s[i])
    decreases |s|
  {
    if s != [] {
      var p := s[..|s| - 1];
      MapSeqAt(f, p);
      assert forall i :: 0 <= i < |p| ==> s[i] == p[i];
    }
  }

  /** The loop both converters share: `build` applied to each row, appended in row order. */
  method BuildEach<A, B>(build: A -> B, rows: seq<A>) returns (out: seq<B>)
    ensures |out| == |rows|
    ensures forall i :: 0 <= i < |rows| ==> out[i] == build(rows[i])
  {
    out := [];
    for i := 0 to |rows|
      invariant out == MapSeq(build, rows[..i])
    {
      assert rows[..i + 1][..i] == rows[..i];
      out := out + [build(rows[i])];
    }
    assert rows[..|rows|] == rows;
    MapSeqAt(build, rows);
  }

  /** `convert_to_documents_lectures`: one document per row, in row order, hashed with
      `hash_lectures` as written. */
  method ConvertToDocumentsLectures(md5: string -> string, rows: seq<Row>) returns (docs: seq<LectureDocument>)
    ensures |docs| == |rows|
    ensures forall i :: 0 <= i < |rows| ==> docs[i] == LectureDocumentOf(md5, rows[i])
  {
    docs := BuildEach(r => LectureDocumentOf(md5, r), rows);
  }

  /** `convert_to_documents_lectures` with the lecture hash. */
  method ConvertToDocumentsLecturesCorrected(md5: string -> string, rows: seq<Row>) returns (docs: seq<LectureDocument>)
    ensures |docs| == |rows|
    ensures forall i :: 0 <= i < |rows| ==> docs[i] == LectureDocumentOfCorrected(md5, rows[i])
  {
    docs := BuildEach(r => LectureDocumentOfCorrected(md5, r), rows);
  }

  /** `convert_to_documents`: one document per course row, in row order. */
  method ConvertToDocuments(md5: string -> string, rows: seq<Row>) returns (docs: seq<CourseDocument>)
    ensures |docs| == |rows|
    ensures forall i :: 0 <= i < |rows| ==> docs[i] == CourseDocumentOf(md5, rows[i])
  {
    docs := BuildEach(r => CourseDocumentOf(md5, r), rows);
  }

  // ---------------------------------------------------------------- reading the store

  /** One stored point: the entity id in its metadata and the stored hash, if any. */
  datatype Point = Point(id: int, hash: Option<string>)

  /** `metadata.get("hash", "")`. */
  function StoredHash(p: Point): string {
    if p.hash.Some? then p.hash.value else ""
  }

  /** All points of the scroll pages, in order. */
  function Flatten(pages: seq<seq<Point>>): seq<Point>
    decreases |pages|
  {
    if pages == [] then [] else Flatten(pages[..|pages| - 1]) + pages[|pages| - 1]
  }

  function IdsOf(points: seq<Point>): set<int> {
    set p | p in points :: p.id
  }

  /** The id -> hash map built by assigning point after point. */
  function HashMapOf(points: seq<Point>): map<int, string>
    decreases |points|
  {
    if points == [] then map[]
    else HashMapOf(points[..|points| - 1])[points[|points| - 1].id := StoredHash(points[|points| - 1])]
  }

  lemma {:induction false} HashMapOfKeys(points: seq<Point>)
    ensures HashMapOf(points).Keys == IdsOf(points)
    decreases |points|
  {
    if points != [] {
      var init := points[..|points| - 1];
      HashMapOfKeys(init);
      assert points == init + [points[|points| - 1]];
      assert IdsOf(points) == IdsOf(init) + {points[|points| - 1].id};
    }
  }

  /** The map keeps the hash of the last point seen with each id. */
  lemma {:induction false} HashMapOfLastSeen(points: seq<Point>, i: int)
    requires 0 <= i < |points|
    requires forall j :: i < j < |points| ==> points[j].id != points[i].id
    ensures points[i].id in HashMapOf(points) && HashMapOf(points)[points[i].id] == StoredHash(points[i])
    decreases |points|
  {
    if i < |points| - 1 {
      var init := points[..|points| - 1];
      assert init[i] == points[i];
      HashMapOfLastSeen(init, i);
    }
  }

  lemma PointSnoc(points: seq<Point>, pt: Point)
    ensures IdsOf(points + [pt]) == IdsOf(points) + {pt.id}
    ensures HashMapOf(points + [pt]) == HashMapOf(points)[pt.id := StoredHash(pt)]
  {
    assert (points + [pt])[..|points|] == points;
  }

  lemma FlattenStep(pages: seq<seq<Point>>, k: int)
    requires 0 <= k < |pages|
    ensures Flatten(pages[..k + 1]) == Flatten(pages[..k]) + pages[k]
  {
    assert pages[..k + 1][..k] == pages[..k];
  }

  /** The inner loop of `get_existing_qdrant_data(_lectures)` over one page: each point's id is added
      and its hash assigned, on top of what the earlier points `seen` left. */
  method ReadPage(points: seq<Point>, ghost seen: seq<Point>, ids0: set<int>, hashMap0: map<int, string>)
    returns (ids: set<int>, hashMap: map<int, string>)
    requires ids0 == IdsOf(seen) && hashMap0 == HashMapOf(seen)
    ensures ids == IdsOf(seen + points) && hashMap == HashMapOf(seen + points)
  {
    ids, hashMap := ids0, hashMap0;
    assert seen + points[..0] == seen;
    for j := 0 to |points|
      invariant ids == IdsOf(seen + points[..j]) && hashMap == HashMapOf(seen + points[..j])
    {
      var pt := points[j];
      PointSnoc(seen + points[..j], pt);
      assert seen + points[..j + 1] == (seen + points[..j]) + [pt];
      ids := ids + {pt.id};
      hashMap := hashMap[pt.id := StoredHash(pt)];
    }
    assert points[..|points|] == points;
  }

  /** `get_existing_qdrant_data(_lectures)`: read every scroll page, collecting ids and hashes. Page i is
      what the i-th scroll call returns; after the last page the store hands back no offset. */
  method GetExistingQdrantData(pages: seq<seq<Point>>) returns (ids: set<int>, hashMap: map<int, string>)
    ensures ids == IdsOf(Flatten(pages))
    ensures hashMap == HashMapOf(Flatten(pages))
  {
    ids, hashMap := {}, map[];
    var step := 0;
    while true
      invariant step == 0 || step < |pages|
      invariant ids == IdsOf(Flatten(pages[..step])) && hashMap == HashMapOf(Flatten(pages[..step]))
      decreases |pages| - step
    {
      var points := if step < |pages| then pages[step] else [];
      ids, hashMap := ReadPage(points, Flatten(pages[..step]), ids, hashMap);
      if step < |pages| {
        FlattenStep(pages, step);
      } else {
        assert Flatten(pages[..step]) + points == Flatten(pages[..step]);
      }
      if step + 1 >= |pages| {
        assert pages == [] || pages[..step + 1] == pages;
        break;
      }
      step := step + 1;
    }
  }

  // ---------------------------------------------------------------- the diff

  /** `{row["LectureID"]: row for row in rows}`: a later row with the same id wins. */
  function DbMap(rows: seq<Row>): (m: map<int, Row>)
    ensures m.Keys == set r | r in rows :: r.id
    decreases |rows|
  {
    if rows == [] then map[]
    else
      var init := rows[..|rows| - 1];
      assert rows == init + [rows[|rows| - 1]];
      DbMap(init)[rows[|rows| - 1].id := rows[|rows| - 1]]
  }

  datatype SyncPlan = SyncPlan(newIds: set<int>, removedIds: set<int>, updatedIds: set<int>)

  /** `qdrant_hash_map.get(cid, "")`. */
  function HashOr(qHash: map<int, string>, cid: int): string {
    if cid in qHash then qHash[cid] else ""
  }

  /** The new / removed / updated split of `sync_*_to_qdrant`. */
  function Plan(db: map<int, Row>, qIds: set<int>, qHash: map<int, string>, hash: Row -> string): (p: SyncPlan)
    ensures p.newIds !! p.removedIds && p.newIds !! p.updatedIds && p.removedIds !! p.updatedIds
    ensures p.newIds + p.updatedIds <= db.Keys
    ensures p.newIds + p.removedIds + p.updatedIds <= db.Keys + qIds
    ensures forall cid :: cid in db && cid in qIds && hash(db[cid]) == HashOr(qHash, cid) ==>
              cid !in p.newIds + p.updatedIds + p.removedIds
    ensures forall cid :: cid in p.newIds + p.updatedIds <==>
              cid in db && (cid !in qIds || hash(db[cid]) != HashOr(qHash, cid))
    ensures forall cid :: cid in p.removedIds <==> cid in qIds && cid !in db
  {
    SyncPlan(db.Keys - qIds, qIds - db.Keys,
             set cid | cid in db.Keys && cid in qIds && hash(db[cid]) != HashOr(qHash, cid))
  }

  /** `to_upsert`, as ids. */
  function ToUpsert(p: SyncPlan): set<int> {
    p.newIds + p.updatedIds
  }

  /** The store seen as entity id -> stored hash, after deleting the removed ids and (re)indexing the
      upserted rows. */
  function Apply(index: map<int, string>, p: SyncPlan, db: map<int, Row>, hash: Row -> string): map<int, string>
    requires ToUpsert(p) <= db.Keys
  {
    map cid | cid in (index.Keys - p.removedIds) + ToUpsert(p) ::
      if cid in ToUpsert(p) then hash(db[cid]) else index[cid]
  }

  /** The store that mirrors the database. */
  function Mirror(db: map<int, Row>, hash: Row -> string): map<int, string> {
    map cid | cid in db :: hash(db[cid])
  }

  /** One sync against the store's own contents leaves it mirroring the database. */
  lemma SyncConverges(db: map<int, Row>, index: map<int, string>, hash: Row -> string)
    ensures Apply(index, Plan(db, index.Keys, index, hash), db, hash) == Mirror(db, hash)
  {
    var p := Plan(db, index.Keys, index, hash);
    var a := Apply(index, p, db, hash);
    assert a.Keys == db.Keys;
    forall cid | cid in db ensures a[cid] == hash(db[cid]) {
      if cid !in ToUpsert(p) {
        assert cid in index && hash(db[cid]) == HashOr(index, cid);
      }
    }
  }

  /** A second sync right after the first finds nothing to do. */
  lemma SyncIdempotent(db: map<int, Row>, hash: Row -> string)
    ensures Plan(db, Mirror(db, hash).Keys, Mirror(db, hash), hash) == SyncPlan({}, {}, {})
  {
  }

  /** `sync_courses_to_qdrant`'s plan. */
  function SyncCoursesPlan(md5: string -> string, rows: seq<Row>, qIds: set<int>, qHash: map<int, string>): SyncPlan {
    Plan(DbMap(rows), qIds, qHash, r => HashCourse(md5, r))
  }

  /** `sync_lectures_to_qdrant`'s plan as written, with `hash_lectures`. */
  function SyncLecturesPlanAsWritten(md5: string -> string, rows: seq<Row>, qIds: set<int>, qHash: map<int, string>): SyncPlan {
    Plan(DbMap(rows), qIds, qHash, r => HashLecturesAsWritten(md5, r))
  }

  /** `sync_lectures_to_qdrant`'s plan with the lecture hash. */
  function SyncLecturesPlan(md5: string -> string, rows: seq<Row>, qIds: set<int>, qHash: map<int, string>): SyncPlan {
    Plan(DbMap(rows), qIds, qHash, r => HashLecture(md5, r))
  }

  /** As written, a lecture row indexed in one state and read back in any other is neither new nor
      updated: no edit of a lecture is ever re-indexed. */
  lemma AsWrittenNeverReindexesLecture(md5: string -> string, before: Row, after: Row)
    requires IsLectureRow(before) && IsLectureRow(after) && before.id == after.id
    ensures var p := SyncLecturesPlanAsWritten(md5, [after], {after.id}, map[after.id := HashLecturesAsWritten(md5, before)]);
            p.updatedIds == {} && ToUpsert(p) == {}
  {
    HashLecturesAsWrittenConstant(md5, before);
    HashLecturesAsWrittenConstant(md5, after);
    assert DbMap([after]) == map[after.id := after];
  }

  /** As written, a lecture whose title was edited after indexing is never re-indexed. */
  lemma LectureEditMissedAsWritten(md5: string -> string)
    ensures var before := Row(1, map["Title" := "Intro"]);
            var after := Row(1, map["Title" := "Intro (revised)"]);
            var p := SyncLecturesPlanAsWritten(md5, [after], {1}, map[1 := HashLecturesAsWritten(md5, before)]);
            before != after && p.updatedIds == {} && ToUpsert(p) == {}
  {
    var before := Row(1, map["Title" := "Intro"]);
    var after := Row(1, map["Title" := "Intro (revised)"]);
    assert before.fields["Title"] != after.fields["Title"];
    assert IsLectureRow(before) && IsLectureRow(after) by {
      assert "Title" == LectureColumns[0];
    }
    AsWrittenNeverReindexesLecture(md5, before, after);
  }

  /** With the lecture hash, the same edit is picked up as an update. */
  lemma LectureEditDetected(md5: string -> string)
    requires Injective(md5)
    ensures var before := Row(1, map["Title" := "Intro"]);
            var after := Row(1, map["Title" := "Intro (revised)"]);
            SyncLecturesPlan(md5, [after], {1}, map[1 := HashLecture(md5, before)]).updatedIds == {1}
  {
    var before := Row(1, map["Title" := "Intro"]);
    var after := Row(1, map["Title" := "Intro (revised)"]);
    assert Field(before, LectureColumns[0], "") != Field(after, LectureColumns[0], "");
    HashLectureDetectsEdits(md5, before, after);
    assert DbMap([after]) == map[1 := after];
  }
}
