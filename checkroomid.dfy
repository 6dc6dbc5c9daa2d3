/**
 * The room-identifier rule: a room id is 6 to 128 characters long and made
 * only of ASCII letters and digits. Length is checked before characters, and
 * a character failure names the first character that is not allowed.
 */
module RoomIdCheck {
  import opened Wrappers

  /**
   * The 62 characters a room id may contain, in the order the source lists
   * them (one string literal there; written here as its three runs).
   */
  const AllowedCharacters: string :=
    "abcdefghijklmnopqrstuvwxyz" + "ABCDEFGHIJKLMNOPQRSTUVWXYZ" + "0123456789"

  const MinLength: nat := 6
  const MaxLength: nat := 128

  /** Why a candidate room id was refused (the source throws a message saying so). */
  datatype RoomIdError =
    | TooShort(length: nat)
    | TooLong(length: nat)
    | CharacterNotAllowed(c: char)

  /** Independent reference definition of the allowed alphabet: ASCII letters and digits. */
  predicate IsAsciiAlphanumeric(c: char)
  {
    ('a' <= c <= 'z') || ('A' <= c <= 'Z') || ('0' <= c <= '9')
  }

  /** The 62-character constant is exactly the ASCII letters and digits. */
  lemma AllowedIsAsciiAlphanumeric(c: char)
    ensures c in AllowedCharacters <==> IsAsciiAlphanumeric(c)
  {
    assert c in "abcdefghijklmnopqrstuvwxyz" <==> 'a' <= c <= 'z';
    assert c in "ABCDEFGHIJKLMNOPQRSTUVWXYZ" <==> 'A' <= c <= 'Z';
    assert c in "0123456789" <==> '0' <= c <= '9';
  }

  /**
   * The position of the first character not in the allowed set, scanning
   * left to right as the source's `for … of` loop does; None when all pass.
   */
  function FirstDisallowed(s: string): (r: Option<nat>)
    ensures r.None? <==> forall i :: 0 <= i < |s| ==> s[i] in AllowedCharacters
    ensures r.Some? ==> r.value < |s| && s[r.value] !in AllowedCharacters
    ensures r.Some? ==> forall j :: 0 <= j < r.value ==> s[j] in AllowedCharacters
  {
    if s == [] then None
    else if s[0] !in AllowedCharacters then Some(0)
    else match FirstDisallowed(s[1..])
      case None => None
      case Some(k) => Some(k + 1)
  }

  /**
   * `checkRoomId`: Ok when the candidate is acceptable, otherwise the first
   * rule it breaks. The length rules come first, so a too-short or too-long
   * string is refused for its length whatever characters it holds.
   */
  function CheckRoomId(roomId: string): (r: Result<(), RoomIdError>)
    ensures |roomId| < MinLength ==> r == Err(TooShort(|roomId|))
    ensures |roomId| > MaxLength ==> r == Err(TooLong(|roomId|))
    ensures r.Err? && r.error.CharacterNotAllowed? ==> MinLength <= |roomId| <= MaxLength
  {
    if |roomId| < MinLength then Err(TooShort(|roomId|))
    else if |roomId| > MaxLength then Err(TooLong(|roomId|))
    else match FirstDisallowed(roomId)
      case None => Ok(())
      case Some(i) => Err(CharacterNotAllowed(roomId[i]))
  }

  /** Every character before position `i` is an ASCII letter or digit. */
  ghost predicate AllAlphanumericBefore(s: string, i: nat)
    requires i <= |s|
  {
    forall j :: 0 <= j < i ==> IsAsciiAlphanumeric(s[j])
  }

  /** A candidate is accepted exactly when its length is in 6..128 and every character is an ASCII letter or digit. */
  lemma CheckRoomIdAcceptsExactlyAlphanumeric(roomId: string)
    ensures CheckRoomId(roomId).Ok? <==>
      MinLength <= |roomId| <= MaxLength && AllAlphanumericBefore(roomId, |roomId|)
  {
    forall i | 0 <= i < |roomId| {
      AllowedIsAsciiAlphanumeric(roomId[i]);
    }
  }

  /** A character refusal names the first character, left to right, that is not an ASCII letter or digit. */
  lemma CheckRoomIdReportsFirstBadCharacter(roomId: string, c: char)
    requires CheckRoomId(roomId) == Err(CharacterNotAllowed(c))
    ensures !IsAsciiAlphanumeric(c)
    ensures exists i :: 0 <= i < |roomId| && roomId[i] == c && AllAlphanumericBefore(roomId, i)
  {
    var i := FirstDisallowed(roomId).value;
    AllowedIsAsciiAlphanumeric(c);
    forall j | 0 <= j < i ensures IsAsciiAlphanumeric(roomId[j]) {
      AllowedIsAsciiAlphanumeric(roomId[j]);
    }
  }
}
