/** The firmware identity string and `firmwareVersion()`: the product
    description constants, the `FIRMWARE_VERSION` literal the preprocessor
    assembles from them, and the pointer into it just past its header. */
module Config {
  import LibC

  /** The `PRODUCT_*` definitions that describe a firmware build. */
  datatype Product = Product(
    orgName: string,
    displayName: string,
    firmwareId: string,
    desc: string,
    major: nat,
    minor: nat,
    patch: nat,
    build: nat,
    builder: string)

  /** This firmware's definitions. */
  const ThisProduct := Product("Blues", "TempTrack", "temptrack", "Asset tracker w/temperature-based alerting",
                               0, 1, 0, 0, "TJ VanToll")

  /** The header the firmware image carries before its JSON description. */
  const FirmwareVersionHeader := "firmware::info:"

  /** `STRINGIFY` of a decimal integer literal written without leading zeros
      or suffix, as `PRODUCT_MAJOR` to `PRODUCT_BUILD` are: its decimal spelling. */
  function Stringify(n: nat): string {
    LibC.Decimal(n)
  }

  /** `QUOTE`: the text between double quotes. */
  function Quote(x: string): string {
    "\"" + x + "\""
  }

  /** `PRODUCT_VERSION`: major "." minor "." patch. */
  function ProductVersion(p: Product): string {
    Stringify(p.major) + "." + Stringify(p.minor) + "." + Stringify(p.patch)
  }

  /** One `"key":value` member of the JSON description. */
  function Member(key: string, value: string): string {
    Quote(key) + ":" + value
  }

  /** The members of the JSON description, in order, as (key, value text)
      pairs. `built` is `PRODUCT_BUILT`, the compiler's `__DATE__ " " __TIME__`,
      fixed only at build time. */
  function Members(p: Product, built: string): (ms: seq<(string, string)>)
    ensures |ms| == 11
    ensures ms[0].0 == "org" && ms[10].0 == "builder"
  {
    [ ("org", Quote(p.orgName)),
      ("product", Quote(p.displayName)),
      ("description", Quote(p.desc)),
      ("firmware", Quote(p.firmwareId)),
      ("version", Quote(ProductVersion(p))),
      ("built", Quote(built)),
      ("ver_major", Stringify(p.major)),
      ("ver_minor", Stringify(p.minor)),
      ("ver_patch", Stringify(p.patch)),
      ("ver_build", Stringify(p.build)),
      ("builder", Quote(p.builder)) ]
  }

  /** The members written one after another, separated by commas. */
  function JoinMembers(ms: seq<(string, string)>): string
    decreases |ms|
  {
    if |ms| == 0 then ""
    else if |ms| == 1 then Member(ms[0].0, ms[0].1)
    else Member(ms[0].0, ms[0].1) + "," + JoinMembers(ms[1..])
  }

  /** Regrouping a concatenation of three strings. */
  lemma Assoc(a: string, b: string, c: string)
    ensures a + (b + c) == (a + b) + c
  {
  }

  /** Moving the outer pieces of a five-part concatenation onto its inner ones. */
  lemma Regroup(x: string, a: string, m: string, b: string, y: string)
    ensures x + (a + m + b) + y == (x + a) + m + (b + y)
  {
  }

  /** Joining two non-empty lists of members puts a comma between their texts. */
  lemma {:induction false} JoinAppend(a: seq<(string, string)>, b: seq<(string, string)>)
    requires |a| > 0 && |b| > 0
    ensures JoinMembers(a + b) == JoinMembers(a) + "," + JoinMembers(b)
    decreases |a|
  {
    var m := Member(a[0].0, a[0].1);
    assert (a + b)[0] == a[0];
    assert (a + b)[1..] == a[1..] + b;
    if |a| > 1 {
      JoinAppend(a[1..], b);
      assert JoinMembers(a + b) == m + "," + (JoinMembers(a[1..]) + "," + JoinMembers(b));
    }
  }

  /** An inner member sits between the joined members before it and those after it,
      with a comma on either side. */
  lemma JoinAt(ms: seq<(string, string)>, i: nat)
    requires 0 < i < |ms| - 1
    ensures JoinMembers(ms) ==
            (JoinMembers(ms[..i]) + ",") + Member(ms[i].0, ms[i].1) + ("," + JoinMembers(ms[i + 1..]))
  {
    var rest := ms[i..];
    assert ms == ms[..i] + rest;
    assert rest[0] == ms[i] && rest[1..] == ms[i + 1..];
    var m, before, after := Member(ms[i].0, ms[i].1), JoinMembers(ms[..i]), JoinMembers(ms[i + 1..]);
    assert JoinMembers(rest) == m + "," + after;
    JoinAppend(ms[..i], rest);
    Assoc(m, ",", after);
    Assoc(before + ",", m, "," + after);
  }

  /** The JSON description that follows the header. */
  function Info(p: Product, built: string): (r: string)
    ensures |r| > 0 && r[0] == '{' && r[|r| - 1] == '}'
  {
    "{" + JoinMembers(Members(p, built)) + "}"
  }

  /** `FIRMWARE_VERSION`: the header followed by the JSON description. */
  function FirmwareVersionLiteral(built: string): string {
    FirmwareVersionHeader + Info(ThisProduct, built)
  }

  /** `sizeof` of a string literal: its characters plus the terminating NUL. */
  function SizeOfLiteral(s: string): nat {
    |s| + 1
  }

  /** Dropping exactly the header's characters from header + body leaves the body,
      and no other offset leaves a suffix that the header completes. */
  lemma StripPrefix(h: string, body: string, k: nat)
    requires k <= |h + body|
    ensures (h + body)[|h|..] == body
    ensures h + (h + body)[k..] == h + body <==> k == |h|
  {
    var whole := h + body;
    if h + whole[k..] == whole {
      assert |h + whole[k..]| == |h| + |whole| - k;
    }
    assert whole[|h|..] == body;
  }

  /** `firmwareVersion()`: the text of `FIRMWARE_VERSION` starting at offset
      `sizeof(FIRMWARE_VERSION_HEADER) - 1`. */
  function FirmwareVersion(built: string): (r: string)
    ensures FirmwareVersionHeader + r == FirmwareVersionLiteral(built)
    ensures |r| == |FirmwareVersionLiteral(built)| - 15
    ensures r[0] == '{' && r[|r| - 1] == '}'
  {
    var body := Info(ThisProduct, built);
    StripPrefix(FirmwareVersionHeader, body, 15);
    (FirmwareVersionHeader + body)[SizeOfLiteral(FirmwareVersionHeader) - 1..]
  }

  /** The offset drops exactly the header's 15 characters and not its NUL. */
  lemma HeaderOffset()
    ensures SizeOfLiteral(FirmwareVersionHeader) - 1 == |FirmwareVersionHeader| == 15
  {
  }

  /** Only the offset `firmwareVersion()` uses leaves a suffix that the header completes:
      one character fewer or more would not. */
  lemma OffsetIsUnique(built: string, k: nat)
    requires k <= |FirmwareVersionLiteral(built)|
    ensures FirmwareVersionHeader + FirmwareVersionLiteral(built)[k..] == FirmwareVersionLiteral(built)
            <==> k == SizeOfLiteral(FirmwareVersionHeader) - 1
  {
    StripPrefix(FirmwareVersionHeader, Info(ThisProduct, built), k);
  }

  lemma ProductVersionText()
    ensures ProductVersion(ThisProduct) == "0.1.0"
  {
    assert Stringify(0) == "0";
    assert Stringify(1) == "1";
  }

  /** The pointer `firmwareVersion()` returns addresses exactly the JSON description:
      the header is skipped and nothing of the description is. */
  lemma FirmwareVersionIsInfo(built: string)
    ensures FirmwareVersion(built) == Info(ThisProduct, built)
  {
    StripPrefix(FirmwareVersionHeader, Info(ThisProduct, built), 15);
  }

  /** `t` occurs in `s` as a contiguous piece. */
  ghost predicate Contains(s: string, t: string) {
    exists before, after :: s == before + t + after
  }

  lemma ContainsWitness(s: string, before: string, t: string, after: string)
    requires s == before + t + after
    ensures Contains(s, t)
  {
  }

  /** Every member after the first and before the last appears, whole and
      comma-delimited, inside the braces around the joined members. */
  lemma BracedContains(ms: seq<(string, string)>, i: nat)
    requires 0 < i < |ms| - 1
    ensures Contains("{" + JoinMembers(ms) + "}", Member(ms[i].0, ms[i].1))
  {
    var m := Member(ms[i].0, ms[i].1);
    JoinAt(ms, i);
    var a, b := JoinMembers(ms[..i]) + ",", "," + JoinMembers(ms[i + 1..]);
    Regroup("{", a, m, b, "}");
    ContainsWitness("{" + JoinMembers(ms) + "}", "{" + a, m, b + "}");
  }

  /** The description's `"version"` member is `PRODUCT_VERSION`, "0.1.0". */
  lemma VersionMember(built: string)
    ensures Contains(FirmwareVersion(built), "\"version\":\"0.1.0\"")
  {
    ProductVersionText();
    FirmwareVersionIsInfo(built);
    var ms := Members(ThisProduct, built);
    BracedContains(ms, 4);
    assert Member(ms[4].0, ms[4].1) == "\"version\":\"0.1.0\"";
  }
}
