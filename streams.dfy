/**
 * `create_stream`: which kind of stream an identifier names. A numeric identifier is
 * a local camera, `pi<n>` a Raspberry Pi camera, `esp<address>` an ESP32 board, a path
 * to an existing file an image stream; anything else is an error. The stream objects
 * themselves are not built: the result says which one would be, with its argument.
 */
module Streams {
  import opened Wrappers
  import opened Keys

  datatype Stream =
    | Camera(index: int)      // CameraStream(int(identifier))
    | PiCamera(index: int)    // CameraPiStream(int(identifier[2:]))
    | Esp32(address: string)  // Esp32(identifier[3:])
    | ImageFile(path: string) // ImageStream(identifier)

  datatype StreamError =
    | InvalidInteger(text: string)    // `int()` raised ValueError
    | UnknownStreamType(identifier: string)

  /** `str.isnumeric`, for ASCII: non-empty and all decimal digits. */
  predicate IsNumeric(s: string) {
    |s| > 0 && AllDigits(s)
  }

  predicate StartsWith(s: string, prefix: string) {
    |prefix| <= |s| && s[..|prefix|] == prefix
  }

  /** `int(s)` for an optionally signed run of ASCII digits. */
  function ParseInt(s: string): (r: Result<int, StreamError>)
    ensures r.Err? ==> r.error == InvalidInteger(s)
  {
    if |s| > 0 && (s[0] == '-' || s[0] == '+') && IsNumeric(s[1..]) then
      Ok(if s[0] == '-' then 0 - DigitsValue(s[1..]) else DigitsValue(s[1..]))
    else if IsNumeric(s) then Ok(DigitsValue(s))
    else Err(InvalidInteger(s))
  }

  /**
   * `create_stream`; `isFile` is `os.path.isfile`. An image stream is opened only for an
   * existing file, and the only `int()` failure is on the text after `pi`.
   */
  function CreateStream(identifier: string, isFile: string -> bool): (r: Result<Stream, StreamError>)
    ensures r.Ok? && r.value.ImageFile? ==> isFile(identifier) && r.value.path == identifier
    ensures r.Err? && r.error.InvalidInteger? ==> StartsWith(identifier, "pi") && r.error.text == identifier[2..]
    ensures r.Err? && r.error.UnknownStreamType? ==> r.error.identifier == identifier && !isFile(identifier)
  {
    if IsNumeric(identifier) then Ok(Camera(DigitsValue(identifier)))
    else if StartsWith(identifier, "pi") then
      match ParseInt(identifier[2..])
      case Ok(n) => Ok(PiCamera(n))
      case Err(e) => Err(e)
    else if StartsWith(identifier, "esp") then Ok(Esp32(identifier[3..]))
    else if isFile(identifier) then Ok(ImageFile(identifier))
    else Err(UnknownStreamType(identifier))
  }

  /** `int(str(n)) == n` and `int("-" + str(n)) == -n`. */
  lemma ParseIntOfKey(n: nat)
    ensures ParseInt(Key(n)) == Ok(n)
    ensures ParseInt("-" + Key(n)) == Ok(0 - n)
    ensures ParseInt("+" + Key(n)) == Ok(n)
  {
    DigitsValueOfKey(n);
    assert ("-" + Key(n))[1..] == Key(n);
    assert ("+" + Key(n))[1..] == Key(n);
  }

  /**
   * The identifier is tried against each rule in turn, and the first that matches
   * decides: numeric, then the `pi` prefix, then `esp`, then an existing file. The
   * file test is reached only for identifiers matching none of the others.
   */
  lemma Dispatch(identifier: string, isFile: string -> bool)
    ensures var r := CreateStream(identifier, isFile);
      && (r.Ok? && r.value.Camera? <==> IsNumeric(identifier))
      && (r.Ok? && r.value.Camera? ==> r.value.index == DigitsValue(identifier))
      && (StartsWith(identifier, "pi") ==>
            && !IsNumeric(identifier)
            && r == (match ParseInt(identifier[2..]) case Ok(n) => Ok(PiCamera(n)) case Err(e) => Err(e)))
      && (r.Ok? && r.value.PiCamera? <==> StartsWith(identifier, "pi") && ParseInt(identifier[2..]).Ok?)
      && (r.Ok? && r.value.Esp32? <==> StartsWith(identifier, "esp") && !IsNumeric(identifier))
      && (r.Ok? && r.value.Esp32? ==> identifier == "esp" + r.value.address)
      && (r.Ok? && r.value.ImageFile? <==>
            !IsNumeric(identifier) && !StartsWith(identifier, "pi") && !StartsWith(identifier, "esp") && isFile(identifier))
      && (r == Err(UnknownStreamType(identifier)) <==>
            !IsNumeric(identifier) && !StartsWith(identifier, "pi") && !StartsWith(identifier, "esp") && !isFile(identifier))
  {
    if StartsWith(identifier, "pi") {
      assert identifier[0] == 'p';
    }
    if StartsWith(identifier, "esp") {
      assert identifier[0] == 'e';
      assert identifier == identifier[..3] + identifier[3..];
    }
  }

  /** The camera index round-trips: `create_stream(str(n))` opens camera n, whatever files exist. */
  lemma CameraOfIndex(n: nat, isFile: string -> bool)
    ensures CreateStream(Key(n), isFile) == Ok(Camera(n))
  {
    DigitsValueOfKey(n);
  }

  /** `pi<n>` opens Pi camera n, even if a file of that name exists. */
  lemma PiCameraOfIndex(n: nat, isFile: string -> bool)
    ensures CreateStream("pi" + Key(n), isFile) == Ok(PiCamera(n))
  {
    var id := "pi" + Key(n);
    assert id[0] == 'p';
    assert id[..2] == "pi" && id[2..] == Key(n);
    ParseIntOfKey(n);
  }

  /** `pi` followed by anything that is not an integer is an error, not a file. */
  lemma PiCameraBadIndex(rest: string, isFile: string -> bool)
    requires ParseInt(rest).Err?
    ensures CreateStream("pi" + rest, isFile) == Err(InvalidInteger(rest))
  {
    var id := "pi" + rest;
    assert id[0] == 'p';
    assert id[..2] == "pi" && id[2..] == rest;
  }

  /** `esp<address>` names that board, for every address. */
  lemma EspOfAddress(address: string, isFile: string -> bool)
    ensures CreateStream("esp" + address, isFile) == Ok(Esp32(address))
  {
    var id := "esp" + address;
    assert id[0] == 'e';
    assert id[..2] != "pi";
    assert id[..3] == "esp" && id[3..] == address;
  }
}
