/**
 * The join form: two text fields, a role select, and the validation that
 * decides whether the form navigates to the room page. Strings are sequences
 * of Unicode scalar values; `String.prototype.trim` and the UTF-16 `length`
 * that JavaScript uses are written out below.
 */
module JoinRoom {
  import opened Media

  /** The characters `trim` removes: ECMAScript WhiteSpace and LineTerminator. */
  predicate IsJsSpace(c: char)
  {
    || c == '\U{9}' || c == '\U{A}' || c == '\U{B}' || c == '\U{C}' || c == '\U{D}' || c == ' '
    || c == '\U{A0}' || c == '\U{1680}' || ('\U{2000}' <= c <= '\U{200A}')
    || c == '\U{2028}' || c == '\U{2029}' || c == '\U{202F}' || c == '\U{205F}' || c == '\U{3000}'
    || c == '\U{FEFF}'
  }

  predicate AllSpaces(s: string)
  {
    forall i :: 0 <= i < |s| ==> IsJsSpace(s[i])
  }

  /** A string with nothing for `trim` to remove at either end. */
  predicate Trimmed(s: string)
  {
    s == [] || (!IsJsSpace(s[0]) && !IsJsSpace(s[|s| - 1]))
  }

  /** The suffix of `s` left once its leading spaces are removed. */
  function TrimStart(s: string): (r: string)
    ensures |r| <= |s|
    ensures r == [] || !IsJsSpace(r[0])
  {
    if s != [] && IsJsSpace(s[0]) then TrimStart(s[1..]) else s
  }

  /** `TrimStart` removes a prefix made of spaces. */
  lemma {:induction false} TrimStartSplit(s: string)
    ensures var r := TrimStart(s); s == s[..|s| - |r|] + r && AllSpaces(s[..|s| - |r|])
  {
    if s != [] && IsJsSpace(s[0]) {
      var r := TrimStart(s);
      TrimStartSplit(s[1..]);
      assert s[..|s| - |r|] == [s[0]] + s[1..][..|s[1..]| - |r|];
    } else {
      assert s == [] + s;
    }
  }

  /** The prefix of `s` left once its trailing spaces are removed. */
  function TrimEnd(s: string): (r: string)
    ensures |r| <= |s|
    ensures r != [] ==> r[0] == s[0]
    ensures r == [] || !IsJsSpace(r[|r| - 1])
  {
    if s != [] && IsJsSpace(s[|s| - 1]) then TrimEnd(s[..|s| - 1]) else s
  }

  /** `TrimEnd` removes a suffix made of spaces. */
  lemma {:induction false} TrimEndSplit(s: string)
    ensures var r := TrimEnd(s); |r| <= |s| && s == r + s[|r|..] && AllSpaces(s[|r|..])
  {
    if s != [] && IsJsSpace(s[|s| - 1]) {
      var init := s[..|s| - 1];
      var r := TrimEnd(s);
      TrimEndSplit(init);
      assert s[|r|..] == init[|r|..] + [s[|s| - 1]];
    } else {
      assert s == s + [];
    }
  }

  /** `s.trim()`. */
  function Trim(s: string): (r: string)
    ensures Trimmed(r)
    ensures |r| <= |s|
  {
    TrimEnd(TrimStart(s))
  }

  /** Removing leading spaces from `a + core` leaves `core` when `core` does not start with one. */
  lemma {:induction false} TrimStartPadded(a: string, core: string)
    requires AllSpaces(a) && (core == [] || !IsJsSpace(core[0]))
    ensures TrimStart(a + core) == core
  {
    if a != [] {
      assert (a + core)[1..] == a[1..] + core;
      TrimStartPadded(a[1..], core);
    } else {
      assert a + core == core;
    }
  }

  /** Removing trailing spaces from `core + b` leaves `core` when `core` does not end with one. */
  lemma {:induction false} TrimEndPadded(core: string, b: string)
    requires AllSpaces(b) && (core == [] || !IsJsSpace(core[|core| - 1]))
    ensures TrimEnd(core + b) == core
  {
    if b != [] {
      assert (core + b)[..|core + b| - 1] == core + b[..|b| - 1];
      TrimEndPadded(core, b[..|b| - 1]);
    } else {
      assert core + b == core;
    }
  }

  /** `trim` gives back the text between any run of leading and any run of trailing spaces. */
  lemma TrimPadded(a: string, core: string, b: string)
    requires AllSpaces(a) && AllSpaces(b) && Trimmed(core)
    ensures Trim(a + core + b) == core
  {
    if core == [] {
      assert a + core + b == a + b;
      assert AllSpaces(a + b);
      TrimStartPadded(a + b, []);
      assert a + b + [] == a + b;
    } else {
      assert a + core + b == a + (core + b);
      TrimStartPadded(a, core + b);
      TrimEndPadded(core, b);
    }
  }

  /** Trimming twice is trimming once. */
  lemma TrimIdempotent(s: string)
    ensures Trim(Trim(s)) == Trim(s)
  {
    var r := Trim(s);
    assert [] + r + [] == r;
    TrimPadded([], r, []);
  }

  /** `!s.trim()`: the trimmed string is empty exactly when `s` is all spaces. */
  lemma TrimEmpty(s: string)
    ensures Trim(s) == [] <==> AllSpaces(s)
  {
    if AllSpaces(s) {
      assert s + [] == s;
      TrimStartPadded(s, []);
    }
    if Trim(s) == [] {
      var t := TrimStart(s);
      TrimStartSplit(s);
      TrimEndSplit(t);
      assert AllSpaces(t);
      assert AllSpaces(s[..|s| - |t|] + t);
    }
  }

  /** `.length`: the number of UTF-16 code units, two for a character beyond U+FFFF. */
  function Utf16Length(s: string): (n: nat)
    ensures |s| <= n <= 2 * |s|
  {
    if s == [] then 0 else Utf16Length(s[1..]) + (if s[0] as int >= 0x1_0000 then 2 else 1)
  }

  /** The two fields of the form, the `field` argument of `handleInputChange`. */
  datatype Field = Name | RoomId

  /** The error messages the form can record. */
  datatype Message = NameRequired | NameTooShort | RoomIdRequired

  /** The text of each message; none is empty, so a recorded message is truthy. */
  function Text(m: Message): (r: string)
    ensures r != []
  {
    match m
    case NameRequired => "Name is required"
    case NameTooShort => "Name must be at least 2 characters"
    case RoomIdRequired => "Room ID is required"
  }

  /**
   * The errors `validateForm` records for the two fields. The name gets the
   * short-name message whenever its trimmed length is below 2, which covers
   * the empty name too, so the required-name message never survives; the room
   * id gets its message when it is blank.
   */
  function Errors(name: string, roomId: string): (r: map<Field, Message>)
  {
    var short, blank := Utf16Length(Trim(name)) < 2, Trim(roomId) == [];
    if short && blank then map[Name := NameTooShort, RoomId := RoomIdRequired]
    else if short then map[Name := NameTooShort]
    else if blank then map[RoomId := RoomIdRequired]
    else map[]
  }

  /**
   * The name has an error exactly when its trimmed UTF-16 length is below 2,
   * and it is then the short-name message, also for an empty name; the room
   * id has an error exactly when it is blank.
   */
  lemma ErrorsFound(name: string, roomId: string)
    ensures var r := Errors(name, roomId);
      && (Name in r <==> Utf16Length(Trim(name)) < 2)
      && (RoomId in r <==> AllSpaces(roomId))
      && (Name in r ==> r[Name] == NameTooShort)
      && (RoomId in r ==> r[RoomId] == RoomIdRequired)
  {
    TrimEmpty(roomId);
  }

  /**
   * A trimmed name is too short when it is empty or one character of the
   * Basic Multilingual Plane; a single character beyond U+FFFF counts twice
   * and passes.
   */
  lemma ShortName(name: string)
    ensures var t := Trim(name);
      Utf16Length(t) < 2 <==> t == [] || (|t| == 1 && t[0] as int < 0x1_0000)
  {
    var t := Trim(name);
    if |t| == 1 {
      assert t[1..] == [];
    }
  }

  /** The `newErrors` object of `validateForm`, filled in the page's order. */
  method NewErrors(name: string, roomId: string) returns (errors: map<Field, Message>)
    ensures errors == Errors(name, roomId)
  {
    errors := map[];
    if Trim(name) == [] {
      errors := errors[Name := NameRequired];
    }
    if Trim(roomId) == [] {
      errors := errors[RoomId := RoomIdRequired];
    }
    if Utf16Length(Trim(name)) < 2 {
      errors := errors[Name := NameTooShort];
    }
  }

  /** The errors object handed to `setErrors`: every recorded message, as a non-null value. */
  function Recorded(errors: map<Field, Message>): (r: map<Field, Option<Message>>)
    ensures r.Keys == errors.Keys
    ensures forall f :: f in errors ==> r[f] == Some(errors[f])
  {
    map f | f in errors :: Some(errors[f])
  }

  /** The query parameters of the room link `handleJoin` navigates to. */
  datatype RoomLink = RoomLink(name: string, roomId: string, role: string)

  /**
   * Where `handleJoin` leads: nowhere when an error was recorded, otherwise
   * to the room with the trimmed name and room id and the selected role.
   */
  function JoinTarget(name: string, roomId: string, role: string): (r: Option<RoomLink>)
    ensures r.Some? <==> Errors(name, roomId) == map[]
    ensures r.Some? ==> r.value == RoomLink(Trim(name), Trim(roomId), role)
  {
    if Errors(name, roomId) == map[] then Some(RoomLink(Trim(name), Trim(roomId), role)) else None
  }

  /**
   * A link the form produces carries a name of at least two UTF-16 units and a
   * non-empty room id, neither with spaces at its ends, so the room page
   * reading them back and trimming again would see the same values.
   */
  lemma JoinTargetClean(name: string, roomId: string, role: string)
    ensures var r := JoinTarget(name, roomId, role);
      r.Some? ==>
        && Utf16Length(r.value.name) >= 2 && r.value.roomId != []
        && Trim(r.value.name) == r.value.name && Trim(r.value.roomId) == r.value.roomId
  {
    var r := JoinTarget(name, roomId, role);
    if r.Some? {
      ErrorsFound(name, roomId);
      assert Name !in Errors(name, roomId) && RoomId !in Errors(name, roomId);
      TrimEmpty(roomId);
      TrimIdempotent(name);
      TrimIdempotent(roomId);
    }
  }

  /** `errors[field]` is truthy: a message, not `null` and not missing. */
  predicate Shown(errors: map<Field, Option<Message>>, field: Field)
  {
    field in errors && errors[field].Some? && Text(errors[field].value) != []
  }

  /** The errors after `handleInputChange(field, ...)`: a shown error of that field becomes `null`. */
  function ClearError(errors: map<Field, Option<Message>>, field: Field): (r: map<Field, Option<Message>>)
    ensures r.Keys == errors.Keys
    ensures !Shown(r, field)
    ensures forall f :: f in errors && f != field ==> r[f] == errors[f]
    ensures !Shown(errors, field) ==> r == errors
  {
    if Shown(errors, field) then errors[field := None] else errors
  }

  /** Typing in the same field again changes no more errors. */
  lemma ClearErrorIdempotent(errors: map<Field, Option<Message>>, field: Field)
    ensures ClearError(ClearError(errors, field), field) == ClearError(errors, field)
  {
  }

  /** The join page's state. */
  class JoinPage {
    var name: string
    var roomId: string
    var role: string
    var isLoading: bool
    var errors: map<Field, Option<Message>>
    var navigation: Option<RoomLink>   // the link handed to `router.push`, once pushed

    constructor ()
      ensures name == "" && roomId == "" && role == "participant" && !isLoading
      ensures errors == map[] && navigation == None
    {
      name, roomId, role, isLoading := "", "", "participant", false;
      errors, navigation := map[], None;
    }

    /** `validateForm`: records the errors found and tells whether there were none. */
    method ValidateForm() returns (ok: bool)
      modifies this
      ensures ok <==> Errors(name, roomId) == map[]
      ensures errors == Recorded(Errors(name, roomId))
      ensures name == old(name) && roomId == old(roomId) && role == old(role)
      ensures isLoading == old(isLoading) && navigation == old(navigation)
    {
      var newErrors := NewErrors(name, roomId);
      errors := Recorded(newErrors);
      ok := |newErrors.Keys| == 0;
    }

    /** `handleJoin`, with the delayed `router.push` taken as done. */
    method HandleJoin()
      modifies this
      ensures navigation == if JoinTarget(name, roomId, role).Some? then JoinTarget(name, roomId, role) else old(navigation)
      ensures isLoading == (JoinTarget(name, roomId, role).Some? || old(isLoading))
      ensures name == old(name) && roomId == old(roomId) && role == old(role)
      ensures errors == Recorded(Errors(name, roomId))
    {
      var ok := ValidateForm();
      if !ok {
        return;
      }
      isLoading := true;
      navigation := Some(RoomLink(Trim(name), Trim(roomId), role));
    }

    /** `handleInputChange(field, value)`. */
    method HandleInputChange(field: Field, value: string)
      modifies this
      ensures name == (if field == Name then value else old(name))
      ensures roomId == (if field == RoomId then value else old(roomId))
      ensures errors == ClearError(old(errors), field)
      ensures role == old(role) && isLoading == old(isLoading) && navigation == old(navigation)
    {
      if field == Name {
        name := value;
      }
      if field == RoomId {
        roomId := value;
      }
      if Shown(errors, field) {
        errors := errors[field := None];
      }
    }
  }
}
