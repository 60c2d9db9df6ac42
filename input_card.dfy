/**
 * `CardWithInputFiles` (example/src/card.tsx): the card that registers the
 * query and corpus datasets with the database and tracks which of the two
 * are loaded. The database's `registerFileHandle` and `registerFileURL`
 * calls are not modelled; which one is made, and under which file name, is
 * the `Registration` result, and whether the awaited call succeeded is a
 * parameter.
 */
module InputCard {
  import opened Wrappers
  import opened FileSelect

  /** The `type` argument of `handleUpload`: `"Query" | "Corpus"`. */
  datatype DatasetKind = Query | Corpus {
    function Name(): string {
      match this
      case Query => "Query"
      case Corpus => "Corpus"
    }
  }

  /** ASCII lower-casing of one character. */
  function LowerChar(c: char): char {
    if 'A' <= c <= 'Z' then (c as int + 32) as char else c
  }

  /** `toLowerCase()` on the ASCII letters. */
  function ToLower(s: string): (r: string)
    ensures |r| == |s|
    ensures forall i :: 0 <= i < |s| ==> r[i] == LowerChar(s[i])
  {
    if s == [] then [] else [LowerChar(s[0])] + ToLower(s[1..])
  }

  /** The database file name of a dataset: `local_${type.toLowerCase()}.parquet`. */
  function FileName(kind: DatasetKind): string {
    "local_" + ToLower(kind.Name()) + ".parquet"
  }

  /** The two datasets are registered as "local_query.parquet" and "local_corpus.parquet", two distinct names. */
  lemma FileNames()
    ensures FileName(Query) == "local_query.parquet"
    ensures FileName(Corpus) == "local_corpus.parquet"
    ensures FileName(Query) != FileName(Corpus)
  {
    assert ToLower("Query") == "query";
    assert ToLower("Corpus") == "corpus";
  }

  /** The database call `handleUpload` makes: a file handle for FILE, a URL for DEFAULT. */
  datatype Registration =
    | FileHandle(fileName: string, file: Chosen)
    | FileUrl(fileName: string, url: Chosen)

  /** `Error("Not supported")`, and the rejection of the awaited database call. */
  datatype UploadError = NotSupported | RegistrationFailed

  /** `expectedState`. */
  const ExpectedState: set<string> := {"Query", "Corpus"}

  /** A subset as large as its superset is the superset. */
  lemma SubsetOfSameSize(a: set<string>, b: set<string>)
    requires a <= b && |a| == |b|
    ensures a == b
  {
    if a != b {
      assert !(b <= a);
      var x :| x in b && x !in a;
      assert a <= b - {x};
      assert |b - {x}| == |b| - 1;
      SubsetSize(a, b - {x});
      assert false;
    }
  }

  /** A subset is no larger than its superset. */
  lemma {:induction false} SubsetSize(a: set<string>, b: set<string>)
    requires a <= b
    ensures |a| <= |b|
    decreases |b|
  {
    if a != {} {
      var x :| x in a;
      SubsetSize(a - {x}, b - {x});
    }
  }

  /**
   * `areSetsEqual`: false as soon as the sizes differ or an element of the
   * first set is missing from the second; true otherwise, that is, exactly
   * when the sets are equal.
   */
  method AreSetsEqual(set1: set<string>, set2: set<string>) returns (r: bool)
    ensures |set1| != |set2| ==> !r
    ensures r <==> set1 == set2
  {
    if |set1| != |set2| {
      return false;
    }
    var rest := set1;
    while rest != {}
      invariant rest <= set1
      invariant forall x :: x in set1 - rest ==> x in set2
      decreases rest
    {
      var item :| item in rest;
      if item !in set2 {
        return false;
      }
      rest := rest - {item};
    }
    SubsetOfSameSize(set1, set2);
    return true;
  }

  /** The loaded set after a completed upload of the given dataset. */
  function AfterUpload(loaded: set<string>, kind: DatasetKind): set<string> {
    loaded + {kind.Name()}
  }

  /** An upload keeps every earlier member, and repeating it changes nothing. */
  lemma UploadGrowsIdempotently(loaded: set<string>, kind: DatasetKind)
    ensures loaded <= AfterUpload(loaded, kind)
    ensures kind.Name() in AfterUpload(loaded, kind)
    ensures AfterUpload(AfterUpload(loaded, kind), kind) == AfterUpload(loaded, kind)
  {
  }

  /** Once both datasets are loaded, further uploads keep them loaded. */
  lemma LoadedStaysLoaded(loaded: set<string>, kind: DatasetKind)
    requires loaded == ExpectedState
    ensures AfterUpload(loaded, kind) == ExpectedState
  {
  }

  /** Among sets of dataset names, the expected state is reached exactly when both datasets are in. */
  lemma LoadedIffBoth(loaded: set<string>)
    requires loaded <= ExpectedState
    ensures loaded == ExpectedState <==> "Query" in loaded && "Corpus" in loaded
  {
  }

  /** The state of `CardWithInputFiles`. */
  class CardWithInputFiles {
    var loadedFiles: set<string>

    /** Only dataset names are ever loaded. */
    ghost predicate Valid()
      reads this
    {
      loadedFiles <= ExpectedState
    }

    /** Nothing loaded yet. */
    constructor ()
      ensures Valid() && loadedFiles == {}
    {
      loadedFiles := {};
    }

    /** `isLoaded`: the loaded set equals {"Query", "Corpus"}. */
    method IsLoaded() returns (b: bool)
      ensures b <==> loadedFiles == ExpectedState
    {
      b := AreSetsEqual(loadedFiles, ExpectedState);
    }

    /**
     * `handleUpload(file, fileType, type)`: registers `file` under the
     * dataset's file name by the route its type selects; an unknown type
     * throws "Not supported". Only a completed registration adds the
     * dataset to the loaded set.
     */
    method HandleUpload(file: Chosen, fileType: string, kind: DatasetKind, registered: bool)
      returns (r: Result<Registration, UploadError>)
      requires Valid()
      modifies this
      ensures Valid()
      ensures fileType != FILE && fileType != DEFAULT ==> r == Err(NotSupported)
      ensures (fileType == FILE || fileType == DEFAULT) && !registered ==> r == Err(RegistrationFailed)
      ensures fileType == FILE && registered ==> r == Ok(FileHandle(FileName(kind), file))
      ensures fileType == DEFAULT && registered ==> r == Ok(FileUrl(FileName(kind), file))
      ensures r.Ok? ==> loadedFiles == AfterUpload(old(loadedFiles), kind)
      ensures r.Err? ==> loadedFiles == old(loadedFiles)
    {
      var fileName := FileName(kind);
      var registration: Registration;
      if fileType == FILE {
        registration := FileHandle(fileName, file);
      } else if fileType == DEFAULT {
        registration := FileUrl(fileName, file);
      } else {
        return Err(NotSupported);
      }
      if !registered {
        return Err(RegistrationFailed);
      }
      loadedFiles := loadedFiles + {kind.Name()};
      return Ok(registration);
    }
  }

  /** Uploading the query and then the corpus, from a fresh card, loads both. */
  method UploadBothLoads(q: Chosen, c: Chosen)
  {
    var card := new CardWithInputFiles();
    var loaded := card.IsLoaded();
    assert !loaded;
    var r1 := card.HandleUpload(q, FILE, Query, true);
    loaded := card.IsLoaded();
    assert !loaded;
    var r2 := card.HandleUpload(c, DEFAULT, Corpus, true);
    loaded := card.IsLoaded();
    assert loaded;
  }
}
