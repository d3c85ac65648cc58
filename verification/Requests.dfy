/** How requests are turned away: the checks a request runs through in order, and what its texts must look like. */
module Requests {
  import opened Collections
  import opened Tables

  // --- checks in order -------------------------------------------------------------------------------------

  /** One check: whether the request fails it, and the error that says so. */
  datatype Check = Check(fails: bool, error: Error)

  /** A reply reports the first check that fails, and reports none only if the request passes all of them. */
  ghost predicate DecidedBy(checks: seq<Check>, reply: Reply) {
    match reply
    case Failed(error) =>
      exists i :: 0 <= i < |checks| && checks[i] == Check(true, error) && forall j :: 0 <= j < i ==> !checks[j].fails
    case _ => forall i :: 0 <= i < |checks| ==> !checks[i].fails
  }

  function FirstFailing(checks: seq<Check>, from: nat): Option<Error>
    requires from <= |checks|
    decreases |checks| - from
  {
    if from == |checks| then None
    else if checks[from].fails then Some(checks[from].error)
    else FirstFailing(checks, from + 1)
  }

  /** What is decided from one check on follows from that check and what is decided from the next one on. */
  predicate Unfolded(checks: seq<Check>, from: nat) {
    from < |checks| ==>
      && FirstFailing(checks, |checks|) == None
      && FirstFailing(checks, from) ==
         if checks[from].fails then Some(checks[from].error) else FirstFailing(checks, from + 1)
  }

  lemma Unfolds(checks: seq<Check>)
    requires |checks| <= 16
    ensures
      && Unfolded(checks, 0) && Unfolded(checks, 1) && Unfolded(checks, 2) && Unfolded(checks, 3)
      && Unfolded(checks, 4) && Unfolded(checks, 5) && Unfolded(checks, 6) && Unfolded(checks, 7)
      && Unfolded(checks, 8) && Unfolded(checks, 9) && Unfolded(checks, 10) && Unfolded(checks, 11)
      && Unfolded(checks, 12) && Unfolded(checks, 13) && Unfolded(checks, 14) && Unfolded(checks, 15)
  {
    assert FirstFailing(checks, |checks|) == None;
  }

  lemma {:induction false} Decides(checks: seq<Check>, from: nat, reply: Reply)
    requires from <= |checks| && forall j :: 0 <= j < from ==> !checks[j].fails
    requires FirstFailing(checks, from) == if reply.Failed? then Some(reply.error) else None
    ensures DecidedBy(checks, reply)
    decreases |checks| - from
  {
    if from < |checks| && !checks[from].fails {
      Decides(checks, from + 1, reply);
    } else if from < |checks| {
      assert checks[from] == Check(true, reply.error);
    }
  }

  // --- remembered requests ---------------------------------------------------------------------------------

  predicate Known(s: State, scope: Scope) { scope in s.ledger.records }

  predicate Clashes(s: State, scope: Scope, digest: Fingerprint) {
    Known(s, scope) && s.ledger.records[scope].fingerprint != digest
  }

  /** The resource an earlier request under the scope was about. */
  function Resource(s: State, scope: Scope): string {
    if Known(s, scope) then s.ledger.records[scope].resourceId else ""
  }

  /** The request, and nothing else, has been added to the remembered ones. */
  predicate Remembers(s: State, t: State, scope: Scope, digest: Fingerprint, resourceId: string) {
    && t.ledger.records.Keys == s.ledger.records.Keys + {scope}
    && (forall other :: other in s.ledger.records && other != scope ==>
          t.ledger.records[other] == s.ledger.records[other])
    && t.ledger.records[scope].fingerprint == digest && t.ledger.records[scope].resourceId == resourceId
    && t.ledger.recordedAt == s.ledger.recordedAt
  }

  /** How many identifiers have been drawn with a prefix. */
  ghost predicate Draws(s: State, t: State, prefix: string, n: nat) {
    && Counter(t.ledger, prefix) == Counter(s.ledger, prefix) + n
    && forall other :: other != prefix ==> Counter(t.ledger, other) == Counter(s.ledger, other)
  }

  /** A table in which at most the row of one key differs. */
  ghost predicate OnlyRow<K(!new), V(!new)>(before: map<K, V>, after: map<K, V>, key: K) {
    && after.Keys == before.Keys + {key}
    && forall other :: other in before && other != key ==> after[other] == before[other]
  }

  // --- texts -----------------------------------------------------------------------------------------------

  /** The characters with the property White_Space, by their code points. */
  lemma WhiteSpaceIsListed(c: char)
    ensures IsSpace(c) <==>
            c as int in {9, 10, 11, 12, 13, 32, 133, 160, 5760, 8192, 8193, 8194, 8195, 8196, 8197, 8198, 8199, 8200,
                         8201, 8202, 8232, 8233, 8239, 8287, 12288}
  {
  }

  /** Trimming takes white space off both ends and nothing else. */
  lemma {:induction false} TrimTakesEnds(s: string) returns (front: string, back: string)
    ensures s == front + Trim(s) + back
    ensures forall c :: c in front + back ==> IsSpace(c)
    ensures Trim(s) != "" ==> !IsSpace(Trim(s)[0]) && !IsSpace(Trim(s)[|Trim(s)| - 1])
    decreases |s|
  {
    front, back := "", "";
    if s != "" && IsSpace(s[0]) {
      front, back := TrimTakesEnds(s[1..]);
      front := [s[0]] + front;
    } else if s != "" && IsSpace(s[|s| - 1]) {
      front, back := TrimTakesEnds(s[..|s| - 1]);
      back := back + [s[|s| - 1]];
    }
  }

  /** A key is 8 to 128 characters long and does not begin or end with white space. */
  predicate GoodKey(key: string) {
    8 <= |key| <= 128 && !IsSpace(key[0]) && !IsSpace(key[|key| - 1])
  }

  lemma KeysAreGood(key: string)
    ensures ValidKey(key) <==> GoodKey(key)
  {
    var front, back := TrimTakesEnds(key);
    if |key| > 0 && Trim(key) == key {
      assert !IsSpace(key[0]);
    }
  }

  /** A digit or a letter, by its code point in ASCII. */
  predicate IsLetterOrDigit(c: char) {
    var n := c as int; 48 <= n < 58 || 65 <= n < 91 || 97 <= n < 123
  }

  /** An identifier is 8 to 64 letters, digits, underscores and hyphens and begins with a letter or digit. */
  predicate GoodId(id: string) {
    8 <= |id| <= 64 && IsLetterOrDigit(id[0]) && forall c :: c in id ==> IsLetterOrDigit(c) || c in "_-"
  }

  lemma IdsAreGood(id: string)
    ensures ValidId(id) <==> GoodId(id)
  {
    assert forall c :: IsAlphanumeric(c) <==> IsLetterOrDigit(c);
    assert forall c :: c in "_-" <==> c == '_' || c == '-';
    assert forall i :: 0 <= i < |id| ==> id[i] in id;
    hide IsAlphanumeric, IsLetterOrDigit;
  }
}
