/**
 * `CodeAnalyzer`: decide each file's framework from its extension and its text, run the
 * registered parser (only Qt has one) on the files it recognises, gather the results in
 * file order and sort them by confidence, highest first, keeping ties in their order.
 */
module CodeAnalyzer {
  import opened Wrappers
  import opened Strings
  import opened Paths
  import opened Models
  import opened QtParser

  const QtExtensions: seq<string> := [".cpp", ".h", ".hpp", ".cc"]
  const QtMarkers: seq<string> := ["#include <Q", "QWidget", "QApplication", "QIcon"]
  const ReactExtensions: seq<string> := [".jsx", ".tsx"]
  const ReactMarkers: seq<string> := ["import React", "from 'react'"]
  const UnityMarkers: seq<string> := ["UnityEngine", "MonoBehaviour"]
  const HtmlExtensions: seq<string> := [".html", ".htm"]

  /** `any(m in code for m in markers)`. */
  predicate MentionsAny(code: string, markers: seq<string>)
  {
    exists m :: m in markers && Contains(code, m)
  }

  /** `file_path.suffix.lower()`. */
  function Extension(path: FsPath): string
  {
    Lower(Suffix(path.Name()))
  }

  /** `detect_framework(file_path, code)`. */
  function DetectFramework(path: FsPath, code: string): Option<Framework>
  {
    var ext := Extension(path);
    if ext in QtExtensions then (if MentionsAny(code, QtMarkers) then Some(Qt) else None)
    else if ext in ReactExtensions then (if MentionsAny(code, ReactMarkers) then Some(React) else None)
    else if ext == ".cs" then (if MentionsAny(code, UnityMarkers) then Some(Unity) else None)
    else if ext in HtmlExtensions then Some(Html)
    else None
  }

  /**
   * Each framework is recognised exactly when the file has one of its extensions and, except
   * for HTML, its text names one of the framework's markers; everything else is unrecognised.
   */
  lemma {:induction false} DetectFrameworkCases(path: FsPath, code: string)
    ensures DetectFramework(path, code) == Some(Qt)
            <==> Extension(path) in QtExtensions && MentionsAny(code, QtMarkers)
    ensures DetectFramework(path, code) == Some(React)
            <==> Extension(path) in ReactExtensions && MentionsAny(code, ReactMarkers)
    ensures DetectFramework(path, code) == Some(Unity)
            <==> Extension(path) == ".cs" && MentionsAny(code, UnityMarkers)
    ensures DetectFramework(path, code) == Some(Html) <==> Extension(path) in HtmlExtensions
  {
  }

  /** A dot is the only character that lower-cases to a dot. */
  lemma {:induction false} LowerKeepsDots(name: string)
    ensures forall k :: 0 <= k < |name| ==> (Lower(name)[k] == '.' <==> name[k] == '.')
  {
  }

  /** Lower-casing a name moves none of its dots. */
  lemma {:induction false} LastDotLower(name: string)
    ensures LastDot(Lower(name)) == LastDot(name)
    decreases |name|
  {
    LowerKeepsDots(name);
    if |name| > 0 && name[|name| - 1] != '.' {
      assert Lower(name)[..|name| - 1] == Lower(name[..|name| - 1]);
      LastDotLower(name[..|name| - 1]);
    }
  }

  /** The suffix of the lower-cased name is the lower-cased suffix. */
  lemma {:induction false} SuffixLower(name: string)
    ensures Suffix(Lower(name)) == Lower(Suffix(name))
  {
    LastDotLower(name);
    var i := SuffixStart(name);
    assert SuffixStart(Lower(name)) == i;
    assert Lower(name)[i..] == Lower(name[i..]);
  }

  /** The extension check ignores case: `main.CPP` is treated as `main.cpp`. */
  lemma {:induction false} DetectIgnoresCase(dir: FsPath, name: string, code: string)
    ensures DetectFramework(dir.Child(Lower(name)), code) == DetectFramework(dir.Child(name), code)
  {
    SuffixLower(name);
    LowerIdempotent(Suffix(name));
  }

  /** The frameworks with a registered parser: only Qt. */
  predicate HasParser(fw: Framework)
  {
    fw == Qt
  }

  /** A source file, with the text its read produced. */
  datatype SourceFile = SourceFile(path: FsPath, code: string)

  /** What one file contributes: its parser's findings, or nothing without framework or parser. */
  function FileOpportunities(f: SourceFile): seq<Opportunity>
  {
    var fw := DetectFramework(f.path, f.code);
    if fw.Some? && HasParser(fw.value) then Detect(f.code, f.path) else []
  }

  /** The findings of all files, concatenated in file order. */
  function Collected(files: seq<SourceFile>): seq<Opportunity>
  {
    if files == [] then [] else Collected(files[..|files| - 1]) + FileOpportunities(files[|files| - 1])
  }

  // ---------------------------------------------------------------------------
  // `list.sort(key=lambda o: o.confidence, reverse=True)`: a stable sort.
  // ---------------------------------------------------------------------------

  /** Non-increasing confidence from left to right. */
  predicate SortedByConfidence(xs: seq<Opportunity>)
  {
    forall i, j :: 0 <= i < j < |xs| ==> xs[i].confidence >= xs[j].confidence
  }

  /** Put `o` after every element whose confidence is at least its own. */
  function Insert(o: Opportunity, ys: seq<Opportunity>): (r: seq<Opportunity>)
    ensures |r| == |ys| + 1
  {
    if ys == [] then [o]
    else if ys[0].confidence >= o.confidence then [ys[0]] + Insert(o, ys[1..])
    else [o] + ys
  }

  /** The stable sort, highest confidence first: insert the elements one by one, left to right. */
  function SortByConfidence(xs: seq<Opportunity>): (r: seq<Opportunity>)
    ensures |r| == |xs|
  {
    if xs == [] then [] else Insert(xs[|xs| - 1], SortByConfidence(xs[..|xs| - 1]))
  }

  /** Inserting adds `o` and loses nothing. */
  lemma {:induction false} InsertPermutes(o: Opportunity, ys: seq<Opportunity>)
    ensures multiset(Insert(o, ys)) == multiset(ys) + multiset{o}
  {
    if ys != [] && ys[0].confidence >= o.confidence {
      InsertPermutes(o, ys[1..]);
      assert ys == [ys[0]] + ys[1..];
    }
  }

  /** Inserting into a sorted list keeps it sorted. */
  lemma {:induction false} InsertSorted(o: Opportunity, ys: seq<Opportunity>)
    requires SortedByConfidence(ys)
    ensures SortedByConfidence(Insert(o, ys))
  {
    if ys != [] && ys[0].confidence >= o.confidence {
      var rest := Insert(o, ys[1..]);
      InsertSorted(o, ys[1..]);
      InsertPermutes(o, ys[1..]);
      forall k | 0 <= k < |rest| ensures ys[0].confidence >= rest[k].confidence {
        assert rest[k] in multiset(rest);
        if rest[k] != o {
          assert rest[k] in multiset(ys[1..]);
          var m :| 0 <= m < |ys[1..]| && ys[1..][m] == rest[k];
          assert ys[m + 1] == rest[k];
        }
      }
    }
  }

  /** The elements of `xs` with confidence `c`, in their order. */
  function WithConfidence(xs: seq<Opportunity>, c: real): (r: seq<Opportunity>)
    ensures |r| <= |xs|
  {
    if xs == [] then []
    else (if xs[0].confidence == c then [xs[0]] else []) + WithConfidence(xs[1..], c)
  }

  /** Selecting from a concatenation selects from each part. */
  lemma {:induction false} WithConfidenceAppend(a: seq<Opportunity>, b: seq<Opportunity>, c: real)
    ensures WithConfidence(a + b, c) == WithConfidence(a, c) + WithConfidence(b, c)
  {
    if a != [] {
      assert (a + b)[1..] == a[1..] + b;
      WithConfidenceAppend(a[1..], b, c);
    } else {
      assert a + b == b;
    }
  }

  /** Nothing is selected from a list holding no element of confidence `c`. */
  lemma {:induction false} WithConfidenceNone(xs: seq<Opportunity>, c: real)
    requires forall k :: 0 <= k < |xs| ==> xs[k].confidence != c
    ensures WithConfidence(xs, c) == []
  {
    if xs != [] {
      WithConfidenceNone(xs[1..], c);
    }
  }

  /** Inserting `o` into a sorted list puts it after every element of the same confidence. */
  lemma {:induction false} InsertStable(o: Opportunity, ys: seq<Opportunity>, c: real)
    requires SortedByConfidence(ys)
    ensures WithConfidence(Insert(o, ys), c)
            == WithConfidence(ys, c) + (if o.confidence == c then [o] else [])
  {
    if ys == [] {
    } else if ys[0].confidence >= o.confidence {
      InsertStable(o, ys[1..], c);
      assert Insert(o, ys)[1..] == Insert(o, ys[1..]);
    } else {
      if o.confidence == c {
        WithConfidenceNone(ys, c);
      }
      assert Insert(o, ys)[1..] == ys;
    }
  }

  /**
   * The sort's three promises: the result is in non-increasing order of confidence, it is a
   * permutation of the input, and elements of equal confidence keep their relative order.
   */
  lemma {:induction false} SortByConfidenceCorrect(xs: seq<Opportunity>)
    ensures SortedByConfidence(SortByConfidence(xs))
    ensures multiset(SortByConfidence(xs)) == multiset(xs)
    ensures forall c :: WithConfidence(SortByConfidence(xs), c) == WithConfidence(xs, c)
  {
    if xs != [] {
      var init := xs[..|xs| - 1];
      var last := xs[|xs| - 1];
      assert xs == init + [last];
      SortByConfidenceCorrect(init);
      InsertSorted(last, SortByConfidence(init));
      InsertPermutes(last, SortByConfidence(init));
      forall c ensures WithConfidence(SortByConfidence(xs), c) == WithConfidence(xs, c) {
        InsertStable(last, SortByConfidence(init), c);
        WithConfidenceAppend(init, [last], c);
      }
    }
  }

  /** Taking one more file appends that file's findings. */
  lemma {:induction false} CollectedSnoc(files: seq<SourceFile>, i: nat)
    requires i < |files|
    ensures Collected(files[..i + 1]) == Collected(files[..i]) + FileOpportunities(files[i])
  {
    assert files[..i + 1][..i] == files[..i];
  }

  /** Proof step only: appending nothing changes nothing, stated once to keep the loop proof cheap. */
  lemma {:induction false} AppendNothing<T>(xs: seq<T>)
    ensures xs + [] == xs
  {
  }

  /** `analyze(file_paths)`, with each file's text given: gather every file's findings, then sort. */
  method Analyze(files: seq<SourceFile>) returns (opps: seq<Opportunity>)
    ensures opps == SortByConfidence(Collected(files))
  {
    var all: seq<Opportunity> := [];
    var i := 0;
    while i < |files|
      invariant 0 <= i <= |files|
      invariant all == Collected(files[..i])
    {
      var f := files[i];
      CollectedSnoc(files, i);
      var fw := DetectFramework(f.path, f.code);
      if fw.Some? && HasParser(fw.value) {
        var found := FindOpportunities(f.code, f.path);
        assert found == FileOpportunities(f);
        all := all + found;
      } else {
        assert FileOpportunities(f) == [];
        AppendNothing(all);
      }
      i := i + 1;
    }
    assert files[..i] == files;
    opps := SortByConfidence(all);
  }

  /** Every finding the analysis reports comes from the Qt parser run on one of the Qt files. */
  lemma {:induction false} CollectedFromQtFiles(files: seq<SourceFile>, o: Opportunity)
    requires o in Collected(files)
    ensures exists k :: 0 <= k < |files| && DetectFramework(files[k].path, files[k].code) == Some(Qt)
                        && o in Detect(files[k].code, files[k].path)
    decreases |files|
  {
    var init := files[..|files| - 1];
    var last := files[|files| - 1];
    if o in Collected(init) {
      CollectedFromQtFiles(init, o);
      var k :| 0 <= k < |init| && DetectFramework(init[k].path, init[k].code) == Some(Qt)
               && o in Detect(init[k].code, init[k].path);
      assert files[k] == init[k];
    } else {
      assert o in FileOpportunities(last);
      assert files[|files| - 1] == last;
    }
  }

  /** A set of files none of which is recognised as Qt yields no finding at all. */
  lemma {:induction false} NoQtNoFindings(files: seq<SourceFile>)
    requires forall k :: 0 <= k < |files| ==> DetectFramework(files[k].path, files[k].code) != Some(Qt)
    ensures Collected(files) == []
    decreases |files|
  {
    if files != [] {
      NoQtNoFindings(files[..|files| - 1]);
    }
  }
}
