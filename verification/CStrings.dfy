/** C strings: text without its terminator, what a fixed buffer keeps of it, and the copy into one. */
module CStrings {
  import opened Options

  const NUL := '\0'

  // The characters before the terminating NUL.
  type Text = s: string | NUL !in s

  // The size of a buffer, which has room for a terminator.
  type Size = n: nat | n > 0 witness 1

  // What a fixed buffer keeps of a text: the longest prefix that leaves room for the terminator.
  function Fit(s: Text, size: Size): (r: Text)
    ensures r <= s && |r| == if |s| < size then |s| else size - 1
  {
    if |s| < size then s else s[..size - 1]
  }

  // A null source is kept as the empty string.
  function Kept(s: Option<Text>, size: Size): Text {
    if s.Some? then Fit(s.value, size) else ""
  }

  // The C string a buffer holds: everything before its first NUL.
  function CString(buffer: seq<char>): Text {
    if buffer == [] || buffer[0] == NUL then [] else [buffer[0]] + CString(buffer[1..])
  }

  lemma {:induction false} CStringOf(text: Text, rest: seq<char>)
    requires rest != [] && rest[0] == NUL
    ensures CString(text + rest) == text
  {
    if text == "" {
      assert text + rest == rest;
    } else {
      assert (text + rest)[1..] == text[1..] + rest;
      CStringOf(text[1..], rest);
    }
  }

  // Copies a string into a fixed buffer, padding with NULs, and always terminates it.
  method CopyString(destination: array<char>, source: Option<Text>)
    modifies destination
    ensures destination.Length > 0 ==> CString(destination[..]) == Kept(source, destination.Length)
  {
    if destination.Length == 0 {
      return;
    }
    if source.None? {
      destination[0] := NUL;
      return;
    }
    var text := source.value;
    var size := destination.Length;
    ghost var kept := Fit(text, size);
    var i := 0;
    while i < size - 1
      invariant i <= size - 1
      invariant forall j :: 0 <= j < i ==> destination[j] == if j < |text| then text[j] else NUL
    {
      destination[i] := if i < |text| then text[i] else NUL;
      i := i + 1;
    }
    destination[size - 1] := NUL;
    assert destination[..] == kept + destination[|kept|..];
    CStringOf(kept, destination[|kept|..]);
  }

  // A string as it reads back from a buffer of the given size.
  method ThroughBuffer(source: Option<Text>, size: Size) returns (r: Text)
    ensures r == Kept(source, size)
  {
    var buffer := new char[size](_ => NUL);
    CopyString(buffer, source);
    r := CString(buffer[..]);
  }
}
