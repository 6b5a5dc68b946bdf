/**
 * Post-processing of retrieved documents: the relevance filter of
 * get_valid_documents and the numbered context string of format_docs.
 */
module Utils {
  import opened Results
  import opened Strings

  /** A retrieved chunk: its text and the metadata the store keeps beside it. */
  datatype Document = Document(pageContent: string, metadata: map<string, string>)

  /**
   * The relevance grader: given the question and a document's text it returns the
   * `binary_score` of its structured answer, or fails as the language-model call
   * that produces it may. Its behaviour is not modelled.
   */
  type Grader = (string, string) -> Outcome<string>

  /** The only score that keeps a document. */
  const Relevant := "yes"

  /**
   * What `get_valid_documents` returns or raises: the documents are graded in
   * order; the first failing grade aborts the call, otherwise the ones scored
   * exactly `yes` are kept.
   */
  function ValidDocuments(grade: Grader, question: string, docs: seq<Document>): Outcome<seq<Document>>
  {
    if docs == [] then Ok([])
    else
      var last := docs[|docs| - 1];
      match ValidDocuments(grade, question, docs[..|docs| - 1])
      case Err(cause) => Err(cause)
      case Ok(kept) =>
        match grade(question, last.pageContent)
        case Err(cause) => Err(cause)
        case Ok(score) => Ok(if score == Relevant then kept + [last] else kept)
  }

  /** The loop of `get_valid_documents`, appending each relevant document to `docs_to_use`. */
  method GetValidDocuments(grade: Grader, question: string, docs: seq<Document>)
    returns (result: Outcome<seq<Document>>)
    ensures result == ValidDocuments(grade, question, docs)
  {
    var docsToUse: seq<Document> := [];
    for i := 0 to |docs|
      invariant ValidDocuments(grade, question, docs[..i]) == Ok(docsToUse)
    {
      var doc := docs[i];
      assert docs[..i + 1][..i] == docs[..i];
      var res := grade(question, doc.pageContent);
      if res.Err? {
        ErrorPersists(grade, question, docs, i + 1);
        return Err(res.cause);
      }
      if res.value == Relevant {
        docsToUse := docsToUse + [doc];
      }
    }
    assert docs[..|docs|] == docs;
    result := Ok(docsToUse);
  }

  /** Once grading a prefix has failed, grading the whole list fails the same way. */
  lemma {:induction false} ErrorPersists(grade: Grader, question: string, docs: seq<Document>, n: nat)
    requires n <= |docs| && ValidDocuments(grade, question, docs[..n]).Err?
    ensures ValidDocuments(grade, question, docs) == ValidDocuments(grade, question, docs[..n])
    decreases |docs| - n
  {
    if n < |docs| {
      assert docs[..n + 1][..n] == docs[..n];
      ErrorPersists(grade, question, docs, n + 1);
    } else {
      assert docs[..n] == docs;
    }
  }

  /** The call succeeds exactly when every grading call succeeds. */
  lemma {:induction false} ValidDocumentsOkIff(grade: Grader, question: string, docs: seq<Document>)
    ensures ValidDocuments(grade, question, docs).Ok? <==>
      forall i :: 0 <= i < |docs| ==> grade(question, docs[i].pageContent).Ok?
  {
    if docs != [] {
      var prefix := docs[..|docs| - 1];
      ValidDocumentsOkIff(grade, question, prefix);
      assert forall i :: 0 <= i < |prefix| ==> prefix[i] == docs[i];
    }
  }

  /** A failure is the failure of the first document whose grading fails. */
  lemma {:induction false} FirstFailureWins(grade: Grader, question: string, docs: seq<Document>, j: nat)
    requires j < |docs| && grade(question, docs[j].pageContent).Err?
    requires forall i :: 0 <= i < j ==> grade(question, docs[i].pageContent).Ok?
    ensures ValidDocuments(grade, question, docs) == Err(grade(question, docs[j].pageContent).cause)
  {
    var prefix := docs[..j];
    ValidDocumentsOkIff(grade, question, prefix);
    assert forall i :: 0 <= i < |prefix| ==> prefix[i] == docs[i];
    assert docs[..j + 1][..j] == prefix;
    assert docs[..j + 1][j] == docs[j];
    ErrorPersists(grade, question, docs, j + 1);
  }

  /** `idx` picks the elements of `sub` out of `s`, in increasing positions. */
  ghost predicate Embeds<T>(sub: seq<T>, s: seq<T>, idx: seq<nat>)
  {
    && |idx| == |sub|
    && (forall k :: 0 <= k < |idx| ==> idx[k] < |s| && sub[k] == s[idx[k]])
    && (forall k, l :: 0 <= k < l < |idx| ==> idx[k] < idx[l])
  }

  ghost predicate IsSubsequence<T>(sub: seq<T>, s: seq<T>)
  {
    exists idx :: Embeds(sub, s, idx)
  }

  /**
   * The documents kept are a subsequence of the input: relative order is
   * preserved, and the positions picked are exactly those graded `yes`.
   */
  lemma {:induction false} KeptIsSubsequence(grade: Grader, question: string, docs: seq<Document>, kept: seq<Document>)
    requires ValidDocuments(grade, question, docs) == Ok(kept)
    ensures IsSubsequence(kept, docs)
  {
    var idx := KeptPositions(grade, question, docs, kept);
  }

  lemma {:induction false} KeptPositions(grade: Grader, question: string, docs: seq<Document>, kept: seq<Document>)
    returns (idx: seq<nat>)
    requires ValidDocuments(grade, question, docs) == Ok(kept)
    ensures Embeds(kept, docs, idx)
    ensures forall i :: 0 <= i < |docs| ==> (i in idx <==> grade(question, docs[i].pageContent) == Ok(Relevant))
  {
    if docs == [] {
      idx := [];
    } else {
      var n := |docs| - 1;
      var prefix := docs[..n];
      var kept' := ValidDocuments(grade, question, prefix).value;
      var idx' := KeptPositions(grade, question, prefix, kept');
      assert forall i :: 0 <= i < n ==> prefix[i] == docs[i];
      if grade(question, docs[n].pageContent) == Ok(Relevant) {
        idx := idx' + [n];
        assert kept == kept' + [docs[n]];
      } else {
        idx := idx';
      }
    }
  }

  /** A document is kept exactly when it is among the input and is graded exactly `yes`. */
  lemma {:induction false} KeptIffYes(grade: Grader, question: string, docs: seq<Document>, kept: seq<Document>)
    requires ValidDocuments(grade, question, docs) == Ok(kept)
    ensures forall d :: d in kept <==> d in docs && grade(question, d.pageContent) == Ok(Relevant)
  {
    if docs != [] {
      var n := |docs| - 1;
      var prefix := docs[..n];
      var kept' := ValidDocuments(grade, question, prefix).value;
      KeptIffYes(grade, question, prefix, kept');
      assert docs == prefix + [docs[n]];
    }
  }

  /** At most the input is kept, and all of it when every grade is `yes`. */
  lemma {:induction false} KeptBounds(grade: Grader, question: string, docs: seq<Document>, kept: seq<Document>)
    requires ValidDocuments(grade, question, docs) == Ok(kept)
    ensures |kept| <= |docs|
    ensures (forall i :: 0 <= i < |docs| ==> grade(question, docs[i].pageContent) == Ok(Relevant)) ==> kept == docs
  {
    if docs != [] {
      var n := |docs| - 1;
      var prefix := docs[..n];
      var kept' := ValidDocuments(grade, question, prefix).value;
      KeptBounds(grade, question, prefix, kept');
      assert forall i :: 0 <= i < n ==> prefix[i] == docs[i];
      assert docs == prefix + [docs[n]];
    }
  }

  /** When no grade is exactly `yes` (`Yes` and `no` alike), every document is dropped. */
  lemma {:induction false} NothingKeptWithoutYes(grade: Grader, question: string, docs: seq<Document>)
    requires forall i :: 0 <= i < |docs| ==>
      grade(question, docs[i].pageContent).Ok? && grade(question, docs[i].pageContent).value != Relevant
    ensures ValidDocuments(grade, question, docs) == Ok([])
  {
    if docs != [] {
      var prefix := docs[..|docs| - 1];
      assert forall i :: 0 <= i < |prefix| ==> prefix[i] == docs[i];
      NothingKeptWithoutYes(grade, question, prefix);
    }
  }

  /** One entry of the context string, numbered `k`. */
  function DocEntry(k: nat, content: string): string
  {
    "<doc" + DecimalString(k) + ">:\nContent:" + content + "\n</doc" + DecimalString(k) + ">\n"
  }

  /** The entries `format_docs` joins: document `i` (from 0) is numbered `i + 1`. */
  function DocEntries(docs: seq<Document>): (entries: seq<string>)
    ensures |entries| == |docs|
  {
    seq(|docs|, i requires 0 <= i < |docs| => DocEntry(i + 1, docs[i].pageContent))
  }

  /** The context string handed to the answer generator and the grounding checker. */
  function FormatDocs(docs: seq<Document>): string
  {
    Join("\n", DocEntries(docs))
  }

  /**
   * The context grows one entry at a time: appending a document adds a newline
   * and the next-numbered entry; no documents give the empty string.
   */
  lemma FormatDocsSnoc(docs: seq<Document>, d: Document)
    ensures FormatDocs([]) == ""
    ensures FormatDocs(docs + [d]) ==
      if docs == [] then DocEntry(1, d.pageContent)
      else FormatDocs(docs) + "\n" + DocEntry(|docs| + 1, d.pageContent)
  {
    var all := DocEntries(docs + [d]);
    assert all == DocEntries(docs) + [DocEntry(|docs| + 1, d.pageContent)];
    if docs != [] {
      JoinConcat("\n", DocEntries(docs), [DocEntry(|docs| + 1, d.pageContent)]);
    }
  }

  /**
   * Entries are told apart by their number: two positions give different
   * entries even when the documents' contents are equal.
   */
  lemma EntriesDistinct(docs: seq<Document>, i: nat, j: nat)
    requires i < |docs| && j < |docs| && i != j
    ensures DocEntries(docs)[i] != DocEntries(docs)[j]
  {
    var si, sj := DecimalString(i + 1), DecimalString(j + 1);
    var ei, ej := DocEntries(docs)[i], DocEntries(docs)[j];
    if si == sj {
      DecimalStringInjective(i + 1, j + 1);
    }
    assert ei[..4 + |si|] == "<doc" + si && ei[4 + |si|] == '>';
    assert ej[..4 + |sj|] == "<doc" + sj && ej[4 + |sj|] == '>';
    if |si| == |sj| {
      var k :| 0 <= k < |si| && si[k] != sj[k];
      assert ei[4 + k] == si[k] && ej[4 + k] == sj[k];
    } else if |si| < |sj| {
      assert ej[4 + |si|] == sj[|si|];
    } else {
      assert ei[4 + |sj|] == si[|sj|];
    }
  }
}
