/** EVSE uids: station id and EVSE id joined by `::` (00_Base/src/model/DTO/EvseDTO.ts). */
module EvseUid {
  import opened Text

  const DELIMITER := "::"

  function UidFormat(stationId: string, evseId: string): string {
    stationId + DELIMITER + evseId
  }

  function ExtractStationId(uid: string): string {
    var split := Split(uid, DELIMITER);
    if |split| > 1 then split[0] else ""
  }

  function ExtractEvseId(uid: string): string {
    var split := Split(uid, DELIMITER);
    if |split| > 1 then split[|split| - 1] else ""
  }

  /** Station ids the format can carry. */
  ghost predicate Separable(stationId: string) {
    && !Contains(stationId, DELIMITER)
    && (stationId != "" ==> stationId[|stationId| - 1] != ':')
  }

  /** From a text without the delimiter neither part can be extracted. */
  lemma NothingToExtract(uid: string)
    requires !Contains(uid, DELIMITER)
    ensures ExtractStationId(uid) == "" && ExtractEvseId(uid) == ""
  {
    SplitAbsent(uid, DELIMITER);
  }

  lemma OccurrenceInPrefix(s: string, t: string, i: nat)
    requires i + 2 <= |s|
    ensures OccursAt(s + t, DELIMITER, i) <==> OccursAt(s, DELIMITER, i)
  {
    assert (s + t)[i..i + 2] == s[i..i + 2];
  }

  /** A separable station id puts the first delimiter right behind it, and no other does. */
  lemma FirstCut(stationId: string, evseId: string)
    ensures OccursAt(UidFormat(stationId, evseId), DELIMITER, |stationId|)
    ensures Separable(stationId) <==> forall j: nat :: j < |stationId| ==>
            !OccursAt(UidFormat(stationId, evseId), DELIMITER, j)
  {
    var uid := UidFormat(stationId, evseId);
    var n := |stationId|;
    assert uid[n..n + 2] == DELIMITER;
    forall j: nat | j + 2 <= n
      ensures OccursAt(uid, DELIMITER, j) <==> OccursAt(stationId, DELIMITER, j)
    {
      assert uid == stationId + (DELIMITER + evseId);
      OccurrenceInPrefix(stationId, DELIMITER + evseId, j);
    }
    if n > 0 {
      assert uid[n - 1..n + 1] == [stationId[n - 1], ':'];
      assert OccursAt(uid, DELIMITER, n - 1) <==> stationId[n - 1] == ':';
    }
    if Separable(stationId) {
      forall j: nat | j < n
        ensures !OccursAt(uid, DELIMITER, j)
      {
        if j + 2 <= n {
          assert !OccursAt(stationId, DELIMITER, j);
        }
      }
    } else if Contains(stationId, DELIMITER) {
      var j: nat :| OccursAt(stationId, DELIMITER, j);
      assert OccursAt(uid, DELIMITER, j);
    } else {
      assert OccursAt(uid, DELIMITER, n - 1);
    }
  }

  /** Extracting the station id undoes the format exactly for separable station ids. */
  lemma StationRoundTrip(stationId: string, evseId: string)
    ensures ExtractStationId(UidFormat(stationId, evseId)) == stationId <==> Separable(stationId)
  {
    var uid := UidFormat(stationId, evseId);
    FirstCut(stationId, evseId);
    var i := IndexFrom(uid, DELIMITER, 0);
    SplitFirst(uid, DELIMITER, i);
    assert i <= |stationId|;
    assert Separable(stationId) <==> i == |stationId|;
    assert |uid[..i]| == i && uid[..|stationId|] == stationId;
  }

  lemma SplitLast(s: string)
    ensures Split(s, DELIMITER)[|Split(s, DELIMITER)| - 1] == s <==> !Contains(s, DELIMITER)
  {
    if Contains(s, DELIMITER) {
      var i := IndexFrom(s, DELIMITER, 0);
      LastNoLonger(s[i + 2..]);
    } else {
      SplitAbsent(s, DELIMITER);
    }
  }

  lemma LastNoLonger(s: string)
    ensures |Split(s, DELIMITER)[|Split(s, DELIMITER)| - 1]| <= |s|
  {
  }

  /** Behind a separable station id, extracting the EVSE id undoes the format exactly when
      the EVSE id has no delimiter of its own. */
  lemma EvseRoundTrip(stationId: string, evseId: string)
    requires Separable(stationId)
    ensures ExtractEvseId(UidFormat(stationId, evseId)) == evseId <==> !Contains(evseId, DELIMITER)
  {
    hide Split, UidFormat, Separable, Contains;
    SplitUid(stationId, evseId);
    LastBehind(stationId, Split(evseId, DELIMITER));
    SplitLast(evseId);
  }

  lemma LastBehind<T>(first: T, rest: seq<T>)
    requires rest != []
    ensures ([first] + rest)[|[first] + rest| - 1] == rest[|rest| - 1] && |[first] + rest| > 1
  {
  }

  lemma SplitUid(stationId: string, evseId: string)
    requires Separable(stationId)
    ensures Split(UidFormat(stationId, evseId), DELIMITER) == [stationId] + Split(evseId, DELIMITER)
  {
    var uid := UidFormat(stationId, evseId);
    FirstCut(stationId, evseId);
    assert uid[..|stationId|] == stationId && uid[|stationId| + 2..] == evseId;
    hide Split, UidFormat, Separable, Contains;
    SplitFirst(uid, DELIMITER, |stationId|);
  }

  /** On separable station ids the format is injective, whatever the EVSE ids. */
  lemma UidInjective(s1: string, e1: string, s2: string, e2: string)
    requires Separable(s1) && Separable(s2) && UidFormat(s1, e1) == UidFormat(s2, e2)
    ensures s1 == s2 && e1 == e2
  {
    StationRoundTrip(s1, e1);
    StationRoundTrip(s2, e2);
    assert UidFormat(s1, e1)[|s1| + 2..] == e1;
    assert UidFormat(s2, e2)[|s2| + 2..] == e2;
  }

  ghost predicate AllDigits(s: string) {
    forall c :: c in s ==> IsDigit(c)
  }

  /** With EVSE ids of digits, the format is injective whatever the station ids: the last delimiter ends at
      the last character that is no digit. */
  lemma UidInjectiveOnDigits(s1: string, e1: string, s2: string, e2: string)
    requires AllDigits(e1) && AllDigits(e2) && UidFormat(s1, e1) == UidFormat(s2, e2)
    ensures s1 == s2 && e1 == e2
  {
    NoLongerDigits(s1, e1, s2, e2);
    NoLongerDigits(s2, e2, s1, e1);
    assert UidFormat(s1, e1)[|s1| + 2..] == e1;
    assert UidFormat(s2, e2)[|s2| + 2..] == e2;
    assert UidFormat(s1, e1)[..|s1|] == s1;
  }

  lemma NoLongerDigits(s1: string, e1: string, s2: string, e2: string)
    requires AllDigits(e2) && UidFormat(s1, e1) == UidFormat(s2, e2)
    ensures |e2| <= |e1|
  {
    var uid := UidFormat(s1, e1);
    var colon, from := |uid| - |e1| - 1, |uid| - |e2|;
    assert uid[colon] == ':';
    forall k | from <= k < |uid| ensures IsDigit(uid[k]) {
      assert uid[k] == e2[k - from] && e2[k - from] in e2;
    }
  }

  /** EVSE ids are numbers wherever a uid is printed, so a uid names one EVSE of one station. */
  lemma UidOfNumberInjective(s1: string, n1: nat, s2: string, n2: nat)
    requires UidFormat(s1, ToString(n1)) == UidFormat(s2, ToString(n2))
    ensures s1 == s2 && n1 == n2
  {
    UidInjectiveOnDigits(s1, ToString(n1), s2, ToString(n2));
    assert NumberOf(ToString(n1)) == n1;
  }

  /** For EVSE ids that are arbitrary text, a station shares its uids with a separable station exactly when it
      is not separable itself: cutting at the first delimiter names the other one. */
  lemma SharedUidIff(stationId: string, evseId: string)
    ensures !Separable(stationId)
       <==> exists s, e :: Separable(s) && s != stationId && UidFormat(s, e) == UidFormat(stationId, evseId)
  {
    var uid := UidFormat(stationId, evseId);
    FirstCut(stationId, evseId);
    if !Separable(stationId) {
      var i := IndexFrom(uid, DELIMITER, 0);
      var s, e := uid[..i], uid[i + 2..];
      assert UidFormat(s, e) == uid;
      FirstCut(s, e);
      assert |s| != |stationId|;
    }
    forall s, e | Separable(s) && UidFormat(s, e) == uid && Separable(stationId) ensures s == stationId {
      UidInjective(s, e, stationId, evseId);
    }
  }

  /** For instance, `a:` shares a uid with `a`. */
  lemma SharedUid()
    ensures UidFormat("a:", "1") == UidFormat("a", ":1")
  {
    assert UidFormat("a:", "1") == "a:::1";
  }
}
