/**
 * `checkRoomId` of checkroomid.js is written for a string, but the join hands
 * it whatever JSON value `roomid` holds. For an array, `length` is the number
 * of elements and `for … of` walks the elements; `indexOf` converts each to a
 * string and searches for it as a substring of the alphabet, so `""`, `"abc"`
 * and `7` all pass. The room key the table then uses is the array's string
 * form, its elements joined by commas, which the room-id rule refuses.
 *
 * This module models that check as written and shows the bypass; the rest of
 * the model refuses a non-string room id (RoomServerSpec.ValidateJoin), under
 * which every room key obeys the rule (RoomServerProperties.RoomKeysObeyRuleKept).
 */
module RoomIdArrayAsWritten {
  import opened Wrappers
  import opened Json
  import RoomIdCheck
  import opened RoomServerSpec

  /** `s.indexOf(sub) >= 0`: `sub` is a prefix of `s` or of one of its suffixes; the empty string occurs everywhere. */
  predicate Occurs(sub: string, s: string)
    decreases |s|
  {
    sub <= s || (|s| > 0 && Occurs(sub, s[1..]))
  }

  /**
   * `checkRoomId(roomid)` for an array whose elements have the string forms
   * `elems`: true where it does not throw.
   */
  predicate ArrayPassesAsWritten(elems: seq<string>)
  {
    && RoomIdCheck.MinLength <= |elems| <= RoomIdCheck.MaxLength
    && forall i :: 0 <= i < |elems| ==> Occurs(elems[i], RoomIdCheck.AllowedCharacters)
  }

  /** `String(roomid)` for such an array: the property key `rooms[roomid]` uses. */
  function JoinWithCommas(elems: seq<string>): (r: string)
    ensures |elems| >= 2 ==> exists i :: 0 <= i < |r| && r[i] == ','
  {
    if |elems| == 0 then ""
    else if |elems| == 1 then elems[0]
    else
      var r := elems[0] + "," + JoinWithCommas(elems[1..]);
      assert r[|elems[0]|] == ',';
      r
  }

  /**
   * Any array of two or more elements gives a room key with a comma in it,
   * which the room-id rule refuses.
   */
  lemma ArrayRoomKeyBreaksRule(elems: seq<string>)
    requires |elems| >= 2
    ensures RoomIdCheck.CheckRoomId(JoinWithCommas(elems)).Err?
  {
    var key := JoinWithCommas(elems);
    var i :| 0 <= i < |key| && key[i] == ',';
    RoomIdCheck.CheckRoomIdAcceptsExactlyAlphanumeric(key);
    assert !RoomIdCheck.IsAsciiAlphanumeric(key[i]);
  }

  /**
   * As written, six empty strings pass `checkRoomId`, and the join creates
   * the room ",,,,,", a key the room-id rule refuses.
   */
  lemma EmptyStringsBypassRoomIdRule()
    ensures ArrayPassesAsWritten(["", "", "", "", "", ""])
    ensures JoinWithCommas(["", "", "", "", "", ""]) == ",,,,,"
    ensures RoomIdCheck.CheckRoomId(",,,,,").Err?
  {
    var elems := ["", "", "", "", "", ""];
    ArrayRoomKeyBreaksRule(elems);
  }

  /** The model refuses an array room id before any room is touched. */
  lemma ArrayRoomIdRefused(fields: Object, text: string)
    requires "roomid" in fields && "displayname" in fields && fields["roomid"] == Compound(text)
    ensures ValidateJoin(Obj(fields)) == Err(RoomIdNotString)
  {
  }
}
