/** The version chain, and the config it leads to from any version in it. */
module ConfigChain {
  import opened Strings
  import opened ConfigSteps

  /** `migrate` changes the sections; the token is what the generator gives if the step asks for one. */
  datatype Migration = Migration(fromVersion: string, toVersion: string, migrate: (Fields, string) -> Fields)

  const CONFIG_VERSION := "14"
  const LAST := 13

  function Chain(): (r: seq<Migration>)
    ensures |r| == LAST
  {
    [Migration("1.0", "2", (c, token) => V1ToV2(c)),
     Migration("2", "3", V2ToV3),
     Migration("3", "4", V3ToV4),
     Migration("4", "5", (c, token) => V4ToV5(c)),
     Migration("5", "6", (c, token) => V5ToV6(c)),
     Migration("6", "7", (c, token) => V6ToV7(c)),
     Migration("7", "8", V7ToV8),
     Migration("8", "9", (c, token) => V8ToV9(c)),
     Migration("9", "10", (c, token) => V9ToV10(c)),
     Migration("10", "11", (c, token) => V10ToV11(c)),
     Migration("11", "12", (c, token) => V11ToV12(c)),
     Migration("12", "13", (c, token) => V12ToV13(c)),
     Migration("13", "14", (c, token) => V13ToV14(c))]
  }

  /**
   * Each step starts where the one before it ended, no version starts two steps, the last
   * step ends at the current version, and every step advances.
   */
  ghost predicate IsLinked(chain: seq<Migration>) {
    && chain != []
    && (forall i :: 0 <= i < |chain| - 1 ==> chain[i].toVersion == chain[i + 1].fromVersion)
    && chain[|chain| - 1].toVersion == CONFIG_VERSION
    && (forall i, j :: 0 <= i < j < |chain| ==> chain[i].fromVersion != chain[j].fromVersion)
    && (forall i :: 0 <= i < |chain| ==> chain[i].fromVersion != CONFIG_VERSION && chain[i].fromVersion != "")
    && (forall i :: 0 <= i < |chain| ==> chain[i].toVersion != chain[i].fromVersion && chain[i].toVersion != "")
  }

  lemma ChainIsLinked()
    ensures IsLinked(Chain())
  {
    StepsMeet();
    VersionsDiffer();
  }

  lemma StepsMeet()
    ensures forall i :: 0 <= i < LAST - 1 ==> Chain()[i].toVersion == Chain()[i + 1].fromVersion
    ensures Chain()[LAST - 1].toVersion == CONFIG_VERSION
  {
  }

  lemma VersionsDiffer()
    ensures forall i, j :: 0 <= i < j < LAST ==> Chain()[i].fromVersion != Chain()[j].fromVersion
    ensures forall i :: 0 <= i < LAST ==> Chain()[i].fromVersion != CONFIG_VERSION && Chain()[i].fromVersion != ""
    ensures forall i :: 0 <= i < LAST ==> Chain()[i].toVersion != Chain()[i].fromVersion && Chain()[i].toVersion != ""
  {
  }

  /** The version a config carries when the steps before `k` have run. */
  function VersionAt(chain: seq<Migration>, k: nat): string
    requires k <= |chain|
  {
    if k < |chain| then chain[k].fromVersion else CONFIG_VERSION
  }

  lemma VersionsAdvance(chain: seq<Migration>, k: nat)
    requires IsLinked(chain) && k < |chain|
    ensures chain[k].toVersion == VersionAt(chain, k + 1)
    ensures VersionAt(chain, k + 1) != VersionAt(chain, k) && VersionAt(chain, k + 1) != ""
    ensures VersionAt(chain, k) != "" && VersionAt(chain, k) != CONFIG_VERSION
  {
  }

  /** Where in the chain a version stands; the chain's length when no step starts from it. */
  function IndexFrom(chain: seq<Migration>, version: string, i: nat): (r: nat)
    requires i <= |chain|
    ensures i <= r <= |chain| && (r < |chain| ==> chain[r].fromVersion == version)
    ensures forall j :: i <= j < r ==> chain[j].fromVersion != version
    decreases |chain| - i
  {
    if i == |chain| || chain[i].fromVersion == version then i else IndexFrom(chain, version, i + 1)
  }

  lemma IndexOfChainVersion(chain: seq<Migration>, i: nat)
    requires IsLinked(chain) && i < |chain|
    ensures IndexFrom(chain, VersionAt(chain, i), 0) == i
  {
    var r := IndexFrom(chain, chain[i].fromVersion, 0);
    assert r <= i;
  }

  function Applied(m: Migration, c: Fields, token: string): (r: Fields)
    ensures StrOf(r, "version") == m.toVersion
  {
    At(m.migrate(c, token), m.toVersion)
  }

  function ApplyStep(i: nat, c: Fields, token: string): (r: Fields)
    requires i < LAST
    ensures StrOf(r, "version") == Chain()[i].toVersion
  {
    Applied(Chain()[i], c, token)
  }

  /** What an entry of the chain does, given the function it holds. */
  lemma EntryApplied(i: nat, migrate: (Fields, string) -> Fields, c: Fields, token: string)
    requires i < LAST && Chain()[i].migrate == migrate
    ensures ApplyStep(i, c, token) == At(migrate(c, token), Chain()[i].toVersion)
  {
  }

  lemma SecondEntry(c: Fields, token: string)
    ensures ApplyStep(1, c, token) == At(V2ToV3(c, token), "3")
  {
    EntryApplied(1, V2ToV3, c, token);
  }

  lemma ThirdEntry(c: Fields, token: string)
    ensures ApplyStep(2, c, token) == At(V3ToV4(c, token), "4")
  {
    EntryApplied(2, V3ToV4, c, token);
  }

  lemma SeventhEntry(c: Fields, token: string)
    ensures ApplyStep(6, c, token) == At(V7ToV8(c, token), "8")
  {
    EntryApplied(6, V7ToV8, c, token);
  }

  /** The steps from `i` to the end of the chain. */
  function RunFrom(chain: seq<Migration>, i: nat, c: Fields, tokens: nat -> string): Fields
    requires i <= |chain|
    decreases |chain| - i
  {
    if i == |chain| then c else RunFrom(chain, i + 1, Applied(chain[i], c, tokens(i)), tokens)
  }

  function LeadingDigits(s: string): (r: string)
    ensures r <= s && (forall i :: 0 <= i < |r| ==> IsDigit(r[i]))
    ensures |r| < |s| ==> !IsDigit(s[|r|])
  {
    if s != "" && IsDigit(s[0]) then [s[0]] + LeadingDigits(s[1..]) else ""
  }

  /** `VersionMajor`; a number `strconv.Atoi` cannot hold counts as unknown. */
  function MajorOf(v: string): nat {
    MajorOfTrimmed(TrimSpace(v))
  }

  function MajorOfTrimmed(v: string): nat {
    var n := DecimalValue(LeadingDigits(v));
    if n > 0x7FFF_FFFF_FFFF_FFFF then 0 else n
  }

  lemma MajorOfNothing()
    ensures MajorOf("") == 0
  {
  }

  /** A version that starts with its digits is its own trimmed text up to them. */
  lemma MajorOfDigits(digits: string, rest: string)
    requires digits != "" && forall i :: 0 <= i < |digits| ==> IsDigit(digits[i])
    requires rest == "" || (rest[0] == '.' && IsDigit(rest[|rest| - 1]))
    requires DecimalValue(digits) < 100
    ensures MajorOf(digits + rest) == DecimalValue(digits)
  {
    var v := digits + rest;
    assert IsDigit(v[0]) && IsDigit(v[|v| - 1]);
    LeadingDigitsOf(digits, rest);
    MajorOfTight(v);
  }

  lemma MajorOfTight(v: string)
    requires v != "" && IsDigit(v[0]) && IsDigit(v[|v| - 1])
    ensures MajorOf(v) == MajorOfTrimmed(v)
  {
    TrimOfTight(v, IsSpace);
  }

  lemma {:induction false} LeadingDigitsOf(digits: string, rest: string)
    requires forall i :: 0 <= i < |digits| ==> IsDigit(digits[i])
    requires rest == "" || !IsDigit(rest[0])
    ensures LeadingDigits(digits + rest) == digits
  {
    if digits == "" {
      assert digits + rest == rest;
    } else {
      LeadingDigitsOf(digits[1..], rest);
      assert (digits + rest)[1..] == digits[1..] + rest;
      assert [digits[0]] + digits[1..] == digits;
    }
  }

  lemma TwoDigits(a: char, b: char)
    requires IsDigit(a) && IsDigit(b)
    ensures DecimalValue([a]) == DigitValue(a)
    ensures DecimalValue([a, b]) == 10 * DigitValue(a) + DigitValue(b)
  {
    assert [a, b][..1] == [a] && [a][..0] == "";
  }

  function MajorText(i: nat): string
    requires 1 <= i <= LAST + 1
  {
    if i < 10 then [('0' as int + i) as char] else ['1', ('0' as int + i - 10) as char]
  }

  lemma MajorTextIs(i: nat)
    requires 1 <= i <= LAST + 1
    ensures MajorOf(MajorText(i)) == i && (i == 1 ==> MajorOf(MajorText(i) + ".0") == i)
  {
    var t := MajorText(i);
    TwoDigits(t[0], t[|t| - 1]);
    assert t == if |t| == 1 then [t[0]] else [t[0], t[1]];
    assert t + "" == t;
    MajorOfDigits(t, "");
    MajorOfDigits(t, ".0");
  }

  lemma VersionsAreMajors(i: nat)
    requires i < LAST
    ensures Chain()[i].fromVersion == if i == 0 then MajorText(1) + ".0" else MajorText(i + 1)
    ensures CONFIG_VERSION == MajorText(14)
  {
  }

  /** No version in the chain counts as newer than the current one. */
  lemma ChainIsNotNewer(i: nat)
    requires i < LAST
    ensures MajorOf(Chain()[i].fromVersion) == i + 1 && MajorOf(CONFIG_VERSION) == 14
  {
    VersionsAreMajors(i);
    MajorTextIs(i + 1);
    MajorTextIs(14);
  }
}
