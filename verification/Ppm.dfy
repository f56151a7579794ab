/** Images as PPM files: the writer, and the reader built on a string stream. */
module Ppm {
  import opened RawImages

  // ----- Decimal numbers -----

  predicate IsDigit(c: char) { '0' <= c <= '9' }

  /** isspace in the classic locale. */
  predicate IsSpace(c: char) {
    c == ' ' || 9 as char <= c <= 13 as char
  }

  /** What %d prints for a number that is not negative. */
  function Printed(n: nat): (s: string)
    ensures |s| > 0 && forall i | 0 <= i < |s| :: IsDigit(s[i])
  {
    var last := [('0' as int + n % 10) as char];
    if n < 10 then last else Printed(n / 10) + last
  }

  function Digit(c: char): nat
    requires IsDigit(c)
  {
    c as int - '0' as int
  }

  ghost predicate AllDigits(s: string, p: nat, q: nat)
    requires p <= q <= |s|
  {
    forall i | p <= i < q :: IsDigit(s[i])
  }

  /** The value of the decimal digits from p up to q. */
  ghost function Decimal(s: string, p: nat, q: nat): nat
    requires p <= q <= |s| && AllDigits(s, p, q)
    decreases q
  {
    if p == q then 0 else 10 * Decimal(s, p, q - 1) + Digit(s[q - 1])
  }

  /** A printed number has that number as its value, wherever it stands. */
  lemma {:induction false} DecimalOfPrinted(s: string, p: nat, n: nat)
    requires p + |Printed(n)| <= |s| && s[p..p + |Printed(n)|] == Printed(n)
    ensures AllDigits(s, p, p + |Printed(n)|) && Decimal(s, p, p + |Printed(n)|) == n
    decreases n
  {
    var q := p + |Printed(n)|;
    forall i | p <= i < q
      ensures s[i] == Printed(n)[i - p]
    {
      assert s[p..q][i - p] == s[i];
    }
    assert Digit(s[q - 1]) == n % 10;
    if n < 10 {
      assert Decimal(s, p, p) == 0;
    } else {
      assert s[p..q - 1] == Printed(n / 10);
      DecimalOfPrinted(s, p, n / 10);
      assert Decimal(s, p, q) == 10 * Decimal(s, p, q - 1) + Digit(s[q - 1]);
      assert 10 * (n / 10) + n % 10 == n;
    }
  }

  // ----- The input stream -----

  /** The state of an input string stream: the read position and the two failure bits. */
  datatype StreamState = StreamState(pos: nat, fail: bool, eof: bool)

  /** The end of the run of spaces, of non-spaces or of digits that starts at p. */
  function SpaceEnd(s: string, p: nat): (q: nat)
    requires p <= |s|
    ensures p <= q <= |s| && (q < |s| ==> !IsSpace(s[q]))
    decreases |s| - p
  {
    if p < |s| && IsSpace(s[p]) then SpaceEnd(s, p + 1) else p
  }

  function WordEnd(s: string, p: nat): (q: nat)
    requires p <= |s|
    ensures p <= q <= |s| && (q < |s| ==> IsSpace(s[q]))
    decreases |s| - p
  {
    if p < |s| && !IsSpace(s[p]) then WordEnd(s, p + 1) else p
  }

  function DigitEnd(s: string, p: nat): (q: nat)
    requires p <= |s|
    ensures p <= q <= |s| && (q < |s| ==> !IsDigit(s[q]))
    ensures AllDigits(s, p, q)
    decreases |s| - p
  {
    if p < |s| && IsDigit(s[p]) then DigitEnd(s, p + 1) else p
  }

  /** What every extraction does first: fail on a stream that is not good, and skip spaces; running
      into the end is a failure. */
  function Entered(s: string, st: StreamState): (r: StreamState)
    requires st.pos <= |s|
    ensures r.pos <= |s| && (!r.fail ==> r.pos < |s| && !r.eof)
  {
    if st.fail || st.eof then st.(fail := true)
    else
      var q := SpaceEnd(s, st.pos);
      StreamState(q, q == |s|, q == |s|)
  }

  function AfterWord(s: string, st: StreamState): (r: StreamState)
    requires st.pos <= |s|
    ensures r.pos <= |s|
  {
    var e := Entered(s, st);
    if e.fail then e
    else
      var q := WordEnd(s, e.pos);
      StreamState(q, false, q == |s|)
  }

  function SignEnd(s: string, p: nat): nat
    requires p < |s|
  {
    if s[p] == '-' || s[p] == '+' then p + 1 else p
  }

  /** The integer extracted next, whatever its size; 0 where there is none. */
  ghost function NextInt(s: string, st: StreamState): int
    requires st.pos <= |s|
  {
    var e := Entered(s, st);
    if e.fail then 0
    else
      var start := SignEnd(s, e.pos);
      var n: int := Decimal(s, start, DigitEnd(s, start));
      if s[e.pos] == '-' then -n else n
  }

  predicate Fits(n: int) { -0x8000_0000 <= n <= INT_MAX }

  /** Extracting an int fails without a digit, and when the number does not fit. */
  ghost function AfterInt(s: string, st: StreamState): (r: StreamState)
    requires st.pos <= |s|
    ensures r.pos <= |s|
    ensures !r.fail ==> Fits(NextInt(s, st)) && (r.eof <==> r.pos == |s|)
  {
    var e := Entered(s, st);
    if e.fail then e
    else
      var start := SignEnd(s, e.pos);
      var q := DigitEnd(s, start);
      StreamState(q, q == start || !Fits(NextInt(s, st)), q == |s|)
  }

  class IStringStream {
    const content: string
    var pos: nat
    var fail: bool
    var eof: bool

    ghost predicate Valid()
      reads this
    {
      pos <= |content|
    }

    ghost function State(): StreamState
      reads this
    {
      StreamState(pos, fail, eof)
    }

    constructor (content: string)
      ensures Valid() && this.content == content && State() == StreamState(0, false, false)
    {
      this.content := content;
      pos, fail, eof := 0, false, false;
    }

    method Enter()
      requires Valid()
      modifies this
      ensures Valid() && State() == Entered(content, old(State()))
    {
      if fail || eof {
        fail := true;
        return;
      }
      while pos < |content| && IsSpace(content[pos])
        invariant Valid() && !fail && !eof
        invariant SpaceEnd(content, pos) == SpaceEnd(content, old(pos))
      {
        pos := pos + 1;
      }
      if pos == |content| {
        fail, eof := true, true;
      }
    }

    method ReadWord() returns (word: string)
      requires Valid()
      modifies this
      ensures Valid() && State() == AfterWord(content, old(State()))
      ensures !fail ==> word == content[Entered(content, old(State())).pos..pos]
    {
      word := "";
      Enter();
      if fail {
        return;
      }
      ghost var start := pos;
      while pos < |content| && !IsSpace(content[pos])
        invariant Valid() && !fail && !eof && start <= pos
        invariant word == content[start..pos]
        invariant WordEnd(content, pos) == WordEnd(content, start)
      {
        word := word + [content[pos]];
        pos := pos + 1;
      }
      eof := pos == |content|;
    }

    method ReadDigits() returns (value: nat)
      requires Valid()
      modifies `pos
      ensures pos == DigitEnd(content, old(pos))
      ensures value == Decimal(content, old(pos), pos)
    {
      value := 0;
      while pos < |content| && IsDigit(content[pos])
        invariant old(pos) <= pos <= |content|
        invariant AllDigits(content, old(pos), pos) && value == Decimal(content, old(pos), pos)
        invariant DigitEnd(content, pos) == DigitEnd(content, old(pos))
      {
        value := 10 * value + Digit(content[pos]);
        pos := pos + 1;
      }
    }

    method ReadInt() returns (n: Int32)
      requires Valid()
      modifies this
      ensures Valid() && State() == AfterInt(content, old(State()))
      ensures !fail ==> n == NextInt(content, old(State()))
    {
      n := 0;
      Enter();
      if fail {
        return;
      }
      var negative := content[pos] == '-';
      if content[pos] == '-' || content[pos] == '+' {
        pos := pos + 1;
      }
      var start := pos;
      var value: int := ReadDigits();
      eof := pos == |content|;
      value := if negative then -value else value;
      if pos == start || !Fits(value) {
        fail := true;
      } else {
        n := value;
      }
    }
  }

  // ----- Writing and reading a file -----

  /** What ToPpmFile writes. */
  function Header(width: nat, height: nat): string {
    "P6\n" + Printed(width) + " " + Printed(height) + "\n255\n"
  }

  method ToPpmFile(image: RawImage) returns (contents: string)
    requires image.Valid()
    ensures contents == Header(image.desc.width, image.desc.height) + image.Value().data
  {
    contents := Header(image.desc.width, image.desc.height);
    ghost var header := contents;
    for i := 0 to image.data.Length
      invariant contents == header + image.data[..i]
    {
      contents := contents + [image.data[i]];
    }
    assert image.data[..] == image.data[..image.data.Length];
  }

  /** Fatal: the RawImage constructor aborts the process. */
  datatype Outcome = HeaderError | Fatal | Read(image: Image)

  /** The header of a file: the stream after it, and the dimensions it gives. */
  ghost function HeaderEnd(s: string): (r: StreamState)
    ensures r.pos <= |s| && (!r.fail ==> (r.eof <==> r.pos == |s|))
  {
    AfterInt(s, AfterInt(s, AfterInt(s, AfterWord(s, StreamState(0, false, false)))))
  }

  ghost function HeaderWidth(s: string): int {
    NextInt(s, AfterWord(s, StreamState(0, false, false)))
  }

  ghost function HeaderHeight(s: string): int {
    NextInt(s, AfterInt(s, AfterWord(s, StreamState(0, false, false))))
  }

  /** The pixels: all but the header and one byte. A header that ends the file puts the stream into
      the eof state, where the position reads as -1, so the pixels are then the whole file. */
  ghost function Pixels(s: string): string
    requires !HeaderEnd(s).fail
  {
    if HeaderEnd(s).eof then s else s[HeaderEnd(s).pos + 1..]
  }

  /** What reading a file means. */
  ghost function Meaning(s: string): Outcome {
    if HeaderEnd(s).fail then HeaderError
    else
      HeaderFits(s);
      var image := Image(Descriptor(HeaderHeight(s), HeaderWidth(s), SRGB), Pixels(s));
      if image.desc.height >= 0 && image.desc.width >= 0 && |image.data| == ByteCount(image.desc) <= INT_MAX
      then Read(image) else Fatal
  }

  /** A stream that has failed stays failed, so a header that is read gives two ints. */
  lemma HeaderFits(s: string)
    ensures !HeaderEnd(s).fail ==> Fits(HeaderWidth(s)) && Fits(HeaderHeight(s))
  {
  }

  /** The constructor's checks decide between reading and aborting. */
  lemma MeaningIsChecked(s: string, image: Image)
    requires !HeaderEnd(s).fail && image.data == Pixels(s) && image.desc.format == SRGB
    requires image.desc.height == HeaderHeight(s) && image.desc.width == HeaderWidth(s)
    ensures Meaning(s) == if image.Valid() then Read(image) else Fatal
  {
    GetBufferSizeIff(image.desc);
  }

  /** Extract the version, the width, the height and the maximal color value. */
  method ReadHeader(contents: string) returns (input: IStringStream, width: Int32, height: Int32)
    ensures fresh(input) && input.Valid() && input.State() == HeaderEnd(contents)
    ensures !input.fail ==> width == HeaderWidth(contents) && height == HeaderHeight(contents)
  {
    input := new IStringStream(contents);
    var version := input.ReadWord();
    width := input.ReadInt();
    height := input.ReadInt();
    var maxColorValue := input.ReadInt();
  }

  /** Move the bytes into an image, or abort. */
  method MakeImage(desc: Descriptor, data: string) returns (outcome: Outcome, dst: RawImage?)
    ensures outcome == if Image(desc, data).Valid() then Read(Image(desc, data)) else Fatal
    ensures outcome.Read? <==> dst != null
    ensures dst != null ==> fresh(dst) && dst.Valid() && dst.Value() == outcome.image
  {
    if !Validate(desc) || GetBufferSize(desc).Invalid? || GetBufferSize(desc).value != |data| {
      return Fatal, null;
    }
    dst := new RawImage.FromBytes(desc, data);
    outcome := Read(Image(desc, data));
  }

  method FromPpmFile(contents: string) returns (outcome: Outcome, dst: RawImage?)
    ensures outcome == Meaning(contents)
    ensures outcome.Read? <==> dst != null
    ensures dst != null ==> fresh(dst) && dst.Valid() && dst.Value() == outcome.image
  {
    var input, width, height := ReadHeader(contents);
    if input.fail {
      return HeaderError, null;
    }
    var tellg := if input.eof then -1 else input.pos;
    var data := contents[tellg + 1..];
    MeaningIsChecked(contents, Image(Descriptor(height, width, SRGB), data));
    outcome, dst := MakeImage(Descriptor(height, width, SRGB), data);
  }

  // ----- What an extraction reads, said without the stream -----

  /** The six white space characters. */
  const SPACES: string := [' ', 9 as char, 10 as char, 11 as char, 12 as char, 13 as char]

  lemma SpaceIsOneOfSix(c: char)
    ensures IsSpace(c) <==> c in SPACES
  {
    if 9 as char <= c <= 13 as char {
      assert SPACES[c as int - 8] == c;
    }
    assert forall x <- SPACES :: x == ' ' || 9 as char <= x <= 13 as char;
  }

  lemma SpaceEndAt(s: string, p: nat, q: nat)
    requires p <= q <= |s| && (forall i | p <= i < q :: s[i] in SPACES) && (q < |s| ==> s[q] !in SPACES)
    ensures SpaceEnd(s, p) == q
    decreases q - p
  {
    if q < |s| {
      SpaceIsOneOfSix(s[q]);
    }
    if p < q {
      SpaceIsOneOfSix(s[p]);
      SpaceEndAt(s, p + 1, q);
    }
  }

  lemma WordEndAt(s: string, p: nat, q: nat)
    requires p <= q <= |s| && (forall i | p <= i < q :: s[i] !in SPACES) && (q < |s| ==> s[q] in SPACES)
    ensures WordEnd(s, p) == q
    decreases q - p
  {
    if q < |s| {
      SpaceIsOneOfSix(s[q]);
    }
    if p < q {
      SpaceIsOneOfSix(s[p]);
      WordEndAt(s, p + 1, q);
    }
  }

  /** Digits are read up to the first character that is not one. */
  lemma DigitEndAt(s: string, p: nat, q: nat)
    requires p <= q <= |s| && (forall i | p <= i < q :: '0' <= s[i] <= '9') && (q < |s| ==> !('0' <= s[q] <= '9'))
    ensures DigitEnd(s, p) == q
    decreases q - p
  {
    if p < q {
      DigitEndAt(s, p + 1, q);
    }
  }

  /** A good stream: white space up to `i` is skipped, and the word that ends at `q` is taken; there has
      to be one. A stream that has failed or ended gives nothing. */
  lemma WordTaken(s: string, st: StreamState, i: nat, q: nat)
    requires st.pos <= i <= q <= |s|
    requires (forall k | st.pos <= k < i :: s[k] in SPACES) && (i < |s| ==> s[i] !in SPACES)
    requires (forall k | i <= k < q :: s[k] !in SPACES) && (q < |s| ==> s[q] in SPACES)
    ensures AfterWord(s, st) ==
            if st.fail || st.eof then st.(fail := true) else StreamState(q, i == |s|, q == |s|)
  {
    SpaceEndAt(s, st.pos, i);
    WordEndAt(s, i, q);
  }

  /** A good stream: white space up to `i` is skipped, then a sign may follow, and the digits from `j` to
      `q` are taken. There has to be a digit, and the number has to fit into an int. */
  lemma NumberTaken(s: string, st: StreamState, i: nat, j: nat, q: nat)
    requires st.pos <= i <= j <= q <= |s|
    requires (forall k | st.pos <= k < i :: s[k] in SPACES) && (i < |s| ==> s[i] !in SPACES)
    requires j == if i < |s| && (s[i] == '-' || s[i] == '+') then i + 1 else i
    requires (forall k | j <= k < q :: '0' <= s[k] <= '9') && (q < |s| ==> !('0' <= s[q] <= '9'))
    ensures var digits: int := Decimal(s, j, q);
            var n := if i < |s| && s[i] == '-' then -digits else digits;
            if st.fail || st.eof then AfterInt(s, st) == st.(fail := true)
            else
              && AfterInt(s, st) == StreamState(q, q == j || !(-0x8000_0000 <= n < 0x8000_0000), q == |s|)
              && (q > j ==> NextInt(s, st) == n)
  {
    SpaceEndAt(s, st.pos, i);
    DigitEndAt(s, j, q);
  }

  // ----- Round trip -----

  /** A number printed after one space and before a space is read back, and nothing more is. */
  lemma ReadsPrinted(s: string, p: nat, n: nat)
    requires n <= INT_MAX
    requires p + 1 + |Printed(n)| < |s| && IsSpace(s[p]) && IsSpace(s[p + 1 + |Printed(n)|])
    requires s[p + 1..p + 1 + |Printed(n)|] == Printed(n)
    ensures NextInt(s, StreamState(p, false, false)) == n
    ensures AfterInt(s, StreamState(p, false, false)) == StreamState(p + 1 + |Printed(n)|, false, false)
  {
    var t := Printed(n);
    var q := p + 1 + |t|;
    DecimalOfPrinted(s, p + 1, n);
    assert IsDigit(s[p + 1]);
    assert SpaceEnd(s, p) == SpaceEnd(s, p + 1) == p + 1;
    DigitEndAt(s, p + 1, q);
  }

  /** The number n is read from p, and then the position is q. */
  ghost predicate Reads(s: string, p: nat, n: int, q: nat)
    requires p <= |s|
  {
    && NextInt(s, StreamState(p, false, false)) == n
    && AfterInt(s, StreamState(p, false, false)) == StreamState(q, false, false)
  }

  /** ReadsPrinted, with the file cut into what precedes the number, the number, and the rest. */
  lemma ReadsPrintedIn(s: string, before: string, space: char, n: nat, space': char, after: string)
    requires n <= INT_MAX && IsSpace(space) && IsSpace(space')
    requires s == before + [space] + Printed(n) + [space'] + after
    ensures Reads(s, |before|, n, |before| + 1 + |Printed(n)|)
  {
    ReadsPrinted(s, |before|, n);
  }

  lemma VersionReadsBack(s: string, rest: string)
    requires s == "P6\n" + rest
    ensures AfterWord(s, StreamState(0, false, false)) == StreamState(2, false, false)
  {
    assert s[0] == 'P' && s[1] == '6' && s[2] == '\n';
    assert WordEnd(s, 1) == WordEnd(s, 2) == 2;
  }

  lemma WidthReadsBack(s: string, width: nat, rest: string)
    requires width <= INT_MAX
    requires s == "P6\n" + Printed(width) + " " + rest
    ensures AfterWord(s, StreamState(0, false, false)) == StreamState(2, false, false)
    ensures Reads(s, 2, width, 3 + |Printed(width)|)
  {
    assert s == "P6\n" + (Printed(width) + " " + rest);
    VersionReadsBack(s, Printed(width) + " " + rest);
    assert "P6\n" == "P6" + ['\n'];
    ReadsPrintedIn(s, "P6", '\n', width, ' ', rest);
  }

  lemma HeightReadsBack(s: string, w: string, height: nat, rest: string)
    requires height <= INT_MAX
    requires s == "P6\n" + w + " " + Printed(height) + "\n" + rest
    ensures Reads(s, 3 + |w|, height, 4 + |w| + |Printed(height)|)
  {
    ReadsPrintedIn(s, "P6\n" + w, ' ', height, '\n', rest);
  }

  lemma MaxColorReadsBack(s: string, dimensions: string, data: string)
    requires s == dimensions + "\n" + "255" + "\n" + data
    ensures Reads(s, |dimensions|, 255, |dimensions| + 4)
  {
    PrintedMaxColor();
    ReadsPrintedIn(s, dimensions, '\n', 255, '\n', data);
  }

  lemma HeaderOfReads(s: string, width: nat, height: nat, p: nat, q: nat, r: nat)
    requires p <= |s| && q <= |s| && |s| >= 2
    requires AfterWord(s, StreamState(0, false, false)) == StreamState(2, false, false)
    requires Reads(s, 2, width, p) && Reads(s, p, height, q) && Reads(s, q, 255, r)
    ensures HeaderWidth(s) == width && HeaderHeight(s) == height
    ensures HeaderEnd(s) == StreamState(r, false, false)
  {
  }

  /** A file cut at each of the three numbers of its header. */
  lemma HeaderOfCuts(s: string, width: nat, height: nat, dimensions: string, data: string,
                     rest: string, rest': string)
    requires width <= INT_MAX && height <= INT_MAX
    requires s == "P6\n" + Printed(width) + " " + rest
    requires s == "P6\n" + Printed(width) + " " + Printed(height) + "\n" + rest'
    requires s == dimensions + "\n" + "255" + "\n" + data
    requires |dimensions| == 4 + |Printed(width)| + |Printed(height)|
    ensures HeaderWidth(s) == width && HeaderHeight(s) == height
    ensures HeaderEnd(s) == StreamState(|dimensions| + 4, false, false)
  {
    var p, q := 3 + |Printed(width)|, |dimensions|;
    WidthReadsBack(s, width, rest);
    HeightReadsBack(s, Printed(width), height, rest');
    MaxColorReadsBack(s, dimensions, data);
    HeaderOfReads(s, width, height, p, q, q + 4);
  }

  /** Whatever follows the header, the header is read back and its length is what was written. */
  lemma HeaderReadsBack(width: nat, height: nat, data: string)
    requires width <= INT_MAX && height <= INT_MAX
    ensures var s := Header(width, height) + data;
            && HeaderEnd(s) == StreamState(|Header(width, height)| - 1, false, false)
            && HeaderWidth(s) == width && HeaderHeight(s) == height
  {
    var s, w, h := Header(width, height) + data, Printed(width), Printed(height);
    assert s == "P6\n" + w + " " + (h + "\n255\n" + data);
    assert s == "P6\n" + w + " " + h + "\n" + ("255\n" + data);
    assert "\n255\n" == "\n" + "255" + "\n";
    HeaderOfCuts(s, width, height, "P6\n" + w + " " + h, data, h + "\n255\n" + data, "255\n" + data);
  }

  lemma PrintedMaxColor()
    ensures Printed(255) == "255"
  {
  }

  /** Writing a valid image and reading it back gives the same image if and only if it is SRGB,
      whatever its bytes look like. The bytes of another non-empty image abort the reader. */
  lemma RoundTripIff(image: Image)
    requires image.Valid()
    ensures var read := Meaning(Header(image.desc.width, image.desc.height) + image.data);
            && (read == Read(image) <==> image.desc.format == SRGB)
            && (image.desc.format != SRGB && image.data != "" ==> read == Fatal)
            && (image.data == "" ==> read == Read(image.(desc := image.desc.(format := SRGB))))
  {
    var width, height := image.desc.width, image.desc.height;
    var s := Header(width, height) + image.data;
    HeaderReadsBack(width, height, image.data);
    assert Pixels(s) == image.data;
    GetBufferSizeIff(image.desc);
    SizeAsSrgb(image.desc);
  }

  lemma SizeAsSrgb(desc: Descriptor)
    requires Validate(desc)
    ensures var size := ByteCount(desc.(format := SRGB));
            && (desc.format == SRGB ==> size == ByteCount(desc))
            && (desc.format != SRGB ==> (size == ByteCount(desc) <==> ByteCount(desc) == 0))
            && (ByteCount(desc) == 0 ==> size == 0)
  {
  }

  /** A file that ends with its header is not always refused: this one has no pixels, and its own
      nine characters are taken for the nine bytes of a 3 by 1 image. */
  lemma HeaderTakenForPixels()
    ensures Meaning("P6 1 3 99") == Read(Image(Descriptor(3, 1, SRGB), "P6 1 3 99"))
  {
    var s := "P6 1 3 99";
    VersionOfTiny();
    ReadsDigit(s, 2, '1');
    ReadsDigit(s, 4, '3');
    ReadsLastDigits();
    assert HeaderWidth(s) == 1;
    assert HeaderHeight(s) == 3;
    assert HeaderEnd(s) == StreamState(9, false, true);
  }

  /** The bytes of an image that is read are exactly what follows the header and one separator, if
      and only if anything follows the header at all. */
  lemma PixelsFollowHeaderIff(s: string)
    requires Meaning(s).Read?
    ensures HeaderEnd(s).pos < |s| <==> |s| == HeaderEnd(s).pos + 1 + |Meaning(s).image.data|
    ensures HeaderEnd(s).pos < |s| ==> Meaning(s).image.data == s[HeaderEnd(s).pos + 1..]
  {
    assert HeaderEnd(s).eof <==> HeaderEnd(s).pos == |s|;
  }

  lemma VersionOfTiny()
    ensures AfterWord("P6 1 3 99", StreamState(0, false, false)) == StreamState(2, false, false)
  {
  }

  lemma ReadsLastDigits()
    ensures AfterInt("P6 1 3 99", StreamState(6, false, false)) == StreamState(9, false, true)
  {
    var s := "P6 1 3 99";
    assert SpaceEnd(s, 6) == SpaceEnd(s, 7) == 7;
    assert DigitEnd(s, 7) == DigitEnd(s, 8) == DigitEnd(s, 9) == 9;
    assert Decimal(s, 7, 8) == 9 && Decimal(s, 7, 9) == 99;
  }

  lemma ReadsDigit(s: string, p: nat, c: char)
    requires p + 2 < |s| && IsSpace(s[p]) && s[p + 1] == c && IsDigit(c) && s[p + 2] == ' '
    ensures NextInt(s, StreamState(p, false, false)) == c as int - '0' as int
    ensures AfterInt(s, StreamState(p, false, false)) == StreamState(p + 2, false, false)
  {
    var n := c as int - '0' as int;
    assert Printed(n) == [c];
    assert s[p + 1..p + 2] == [c];
    ReadsPrinted(s, p, n);
  }
}
