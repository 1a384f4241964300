/** The script that fills the Users sheet with 600 mock guests: a random Thai name, an
    avatar URL coloured by index and a LINE id made from the index, with one shared
    timestamp. */
module MockUsers {
  import opened Common
  import opened Text
  import opened SheetRows

  const ThaiFirstNames: seq<string> := [
    "สมชาย", "สมหญิง", "วิชัย", "วิภา", "ประเสริฐ", "ประนอม", "สุรชัย", "สุดา",
    "นิรันดร์", "นิภา", "วีระ", "วารี", "ชัยวัฒน์", "ชนิดา", "อนุชา", "อรุณี",
    "พิชัย", "พิมพ์", "ธนา", "ธนิดา", "กิตติ", "กนิษฐา", "ปิยะ", "ปิยะนุช",
    "ศักดิ์", "ศิริ", "จักร", "จันทร์", "รัตน์", "รุ่ง", "สุข", "สาย",
    "เดช", "เดือน", "บุญ", "บัว", "ทอง", "ทิพย์", "แสง", "แก้ว",
    "นพ", "นภา", "มานะ", "มาลี", "ยศ", "ยุพา", "ลักษณ์", "ลิขิต",
    "วัน", "วันดี", "สิน", "สินี", "หนึ่ง", "หนึ่งฤทัย", "อำนาจ", "อัญชลี",
    "เอก", "เอื้อ", "โชค", "โฉม", "ใจ", "ใหม่", "ไพร", "ไพบูลย์"
  ]

  const ThaiLastNames: seq<string> := [
    "ใจดี", "สุขสันต์", "รักษา", "พัฒนา", "เจริญ", "มั่นคง", "สว่าง", "สมบูรณ์",
    "ทรงพล", "ทรงศักดิ์", "วงศ์", "ศรี", "ทอง", "เงิน", "แก้ว", "คำ",
    "บุญ", "ชัย", "ดี", "สุข", "รุ่ง", "เรือง", "สง่า", "งาม",
    "มั่น", "แข็ง", "แกร่ง", "กล้า", "หาญ", "เด่น", "ดัง", "โชค",
    "ลาภ", "ยศ", "ศักดิ์", "สิทธิ์", "วิทย์", "ชาติ", "ประเสริฐ", "วิเศษ",
    "พิเศษ", "สุด", "เลิศ", "ยอด", "เยี่ยม", "ดีเลิศ", "สมบัติ", "ทรัพย์",
    "มณี", "รัตน์", "พร", "ชนะ", "ชนม์", "ชีวิต", "ภูมิ", "ภักดี"
  ]

  const Colors: seq<string> := ["D4AF37", "F4C430", "4CAF50", "2196F3", "FF9800", "E91E63", "9C27B0", "00BCD4"]

  /** `generateThaiName`: a first name and a last name joined by one space. `first` and
      `last` are the two `Math.floor(Math.random() * length)` draws. */
  function GenerateThaiName(first: nat, last: nat): (name: string)
    requires first < |ThaiFirstNames| && last < |ThaiLastNames|
    ensures |name| == |ThaiFirstNames[first]| + 1 + |ThaiLastNames[last]|
    ensures name[..|ThaiFirstNames[first]|] == ThaiFirstNames[first]
    ensures name[|ThaiFirstNames[first]|] == ' '
    ensures name[|ThaiFirstNames[first]| + 1..] == ThaiLastNames[last]
  {
    ThaiFirstNames[first] + " " + ThaiLastNames[last]
  }

  /** A generated name is a listed guest name: not empty and not the header's "Name". */
  lemma ThaiNameIsListed(first: nat, last: nat)
    requires first < |ThaiFirstNames| && last < |ThaiLastNames|
    ensures Listed(Guest(GenerateThaiName(first, last), None, None))
  {
    var name := GenerateThaiName(first, last);
    assert name[|ThaiFirstNames[first]|] == ' ';
  }

  const UrlPrefix: string := "https://ui-avatars.com/api/?name=User+"

  /** What follows the index in an avatar URL: the colour `index mod 8` and the fixed
      text colour and size. */
  function UrlSuffix(index: nat): (s: string)
    ensures s != [] && s[0] == '&' && !IsDigit(s[0])
    ensures |s| == 37 && s[..12] == "&background=" && s[12..18] == Colors[index % 8]
    ensures s[18..] == "&color=fff&size=200"
  {
    var color := Colors[index % |Colors|];
    assert |color| == 6;
    var s := "&background=" + color + "&color=fff&size=200";
    assert s[12..18] == color;
    s
  }

  /** The three parts of a joined text are its slices at the part boundaries. */
  lemma PartsOfJoin(a: string, b: string, c: string)
    ensures (a + (b + c))[..|a|] == a
    ensures (a + (b + c))[|a|..|a| + |b|] == b
    ensures (a + (b + c))[|a| + |b|..] == c
  {
  }

  /** `generateProfileUrl`: the avatar of `User+index` on the colour `index mod 8`. */
  function GenerateProfileUrl(index: nat): (url: string)
    ensures var d := |UrlPrefix| + |Decimal(index)|;
      && |UrlPrefix| <= d <= |url|
      && url[..|UrlPrefix|] == UrlPrefix
      && AllDigits(url[|UrlPrefix|..d]) && Value(url[|UrlPrefix|..d]) == index
      && url[d..] == UrlSuffix(index)
  {
    ValueOfDecimal(index);
    PartsOfJoin(UrlPrefix, Decimal(index), UrlSuffix(index));
    UrlPrefix + (Decimal(index) + UrlSuffix(index))
  }

  /** Two strings of digits each followed by a non-digit: equal concatenations mean
      equal digit strings. */
  lemma DigitsThenMark(a: string, x: string, b: string, y: string)
    requires AllDigits(a) && AllDigits(b) && x != [] && y != [] && !IsDigit(x[0]) && !IsDigit(y[0])
    requires a + x == b + y
    ensures a == b
  {
    var m := if |a| < |b| then |a| else |b|;
    assert (a + x)[m] == (b + y)[m];
    assert |a| == |b|;
    assert a == (a + x)[..|a|];
    assert b == (b + y)[..|b|];
  }

  /** Distinct indexes get distinct avatar URLs: the index is read back from the URL. */
  lemma ProfileUrlInjective(i: nat, j: nat)
    requires GenerateProfileUrl(i) == GenerateProfileUrl(j)
    ensures i == j
  {
    var u, v := Decimal(i) + UrlSuffix(i), Decimal(j) + UrlSuffix(j);
    assert u == GenerateProfileUrl(i)[|UrlPrefix|..];
    assert v == GenerateProfileUrl(j)[|UrlPrefix|..];
    DigitsThenMark(Decimal(i), UrlSuffix(i), Decimal(j), UrlSuffix(j));
    ValueOfDecimal(i);
    ValueOfDecimal(j);
  }

  /** `generateLineId`: "U" and the index in decimal, left-padded with '0' to 32 digits. */
  function GenerateLineId(index: nat): (id: string)
    ensures |id| >= 33 && id[0] == 'U' && AllDigits(id[1..])
    ensures |Decimal(index)| <= 32 ==> |id| == 33
    ensures Value(id[1..]) == index
  {
    ValueOfPadded(index, 32);
    var id := "U" + PadStart(Decimal(index), 32, '0');
    assert id[1..] == PadStart(Decimal(index), 32, '0');
    id
  }

  /** Distinct indexes get distinct LINE ids. */
  lemma LineIdInjective(i: nat, j: nat)
    requires GenerateLineId(i) == GenerateLineId(j)
    ensures i == j
  {
  }

  function Pow10(k: nat): nat
  {
    if k == 0 then 1 else 10 * Pow10(k - 1)
  }

  /** A number below 10^k has at most k digits. */
  lemma {:induction false} DecimalLength(n: nat, k: nat)
    requires 1 <= k && n < Pow10(k)
    ensures |Decimal(n)| <= k
  {
    if n >= 10 {
      assert k >= 2;
      assert n / 10 < Pow10(k - 1);
      assert Decimal(n) == Decimal(n / 10) + [DigitChar(n % 10)];
      DecimalLength(n / 10, k - 1);
    }
  }

  /** The row of the mock user with index `i`. */
  function MockRow(name: string, i: nat, timestamp: string): Row
  {
    [name, GenerateProfileUrl(i), GenerateLineId(i), timestamp]
  }

  /** A valid choice of a first and a last name for each of the 600 users. */
  predicate ValidNamePicks(picks: seq<(nat, nat)>)
  {
    |picks| == 600 && forall k :: 0 <= k < 600 ==> picks[k].0 < |ThaiFirstNames| && picks[k].1 < |ThaiLastNames|
  }

  /** The rows of the users with indexes 1 to `n`. */
  function MockRows(picks: seq<(nat, nat)>, timestamp: string, n: nat): (rows: seq<Row>)
    requires n <= 600 && ValidNamePicks(picks)
    ensures |rows| == n
  {
    if n == 0 then []
    else MockRows(picks, timestamp, n - 1) + [MockRow(GenerateThaiName(picks[n - 1].0, picks[n - 1].1), n, timestamp)]
  }

  /** Row `k` of the list is the user with index `k + 1` and the `k`-th pair of picks. */
  lemma {:induction false} MockRowAt(picks: seq<(nat, nat)>, timestamp: string, n: nat, k: nat)
    requires n <= 600 && ValidNamePicks(picks) && k < n
    ensures MockRows(picks, timestamp, n)[k] == MockRow(GenerateThaiName(picks[k].0, picks[k].1), k + 1, timestamp)
  {
    if k < n - 1 {
      MockRowAt(picks, timestamp, n - 1, k);
    }
  }

  /** The loop of `populateMockUsers` building the rows for indexes 1 to 600. */
  method BuildUsers(picks: seq<(nat, nat)>, timestamp: string) returns (users: seq<Row>)
    requires ValidNamePicks(picks)
    ensures |users| == 600
    ensures forall k :: 0 <= k < 600 ==>
      users[k] == MockRow(GenerateThaiName(picks[k].0, picks[k].1), k + 1, timestamp)
  {
    users := [];
    for i := 1 to 601
      invariant users == MockRows(picks, timestamp, i - 1)
    {
      var name := GenerateThaiName(picks[i - 1].0, picks[i - 1].1);
      users := users + [[name, GenerateProfileUrl(i), GenerateLineId(i), timestamp]];
    }
    forall k | 0 <= k < 600
      ensures users[k] == MockRow(GenerateThaiName(picks[k].0, picks[k].1), k + 1, timestamp)
    {
      MockRowAt(picks, timestamp, 600, k);
    }
  }

  /** The 600 mock users get 600 distinct LINE ids of 33 characters each. */
  lemma MockIdsDistinct()
    ensures forall i :: 1 <= i <= 600 ==> |GenerateLineId(i)| == 33
    ensures forall i, j :: 1 <= i < j <= 600 ==> GenerateLineId(i) != GenerateLineId(j)
  {
    forall i | 1 <= i <= 600 ensures |GenerateLineId(i)| == 33 {
      assert Pow10(3) == 1000;
      DecimalLength(i, 3);
    }
    forall i, j | 1 <= i < j <= 600 ensures GenerateLineId(i) != GenerateLineId(j) {
      if GenerateLineId(i) == GenerateLineId(j) {
        LineIdInjective(i, j);
      }
    }
  }

  /** Read back under the header row, the mock rows give 600 guests, and the count
      endpoint reports 600. */
  lemma MockUsersAreListed(picks: seq<(nat, nat)>, timestamp: string, users: seq<Row>)
    requires ValidNamePicks(picks) && |users| == 600
    requires forall k :: 0 <= k < 600 ==>
      users[k] == MockRow(GenerateThaiName(picks[k].0, picks[k].1), k + 1, timestamp)
    ensures DecodeGuests(Some([["Name"]] + users)) == RowsToGuests(users)
    ensures |DecodeGuests(Some([["Name"]] + users))| == 600
    ensures UserCount(Some([["Name"]] + users)) == 600
  {
    HeaderIsDropped(["Name"], users);
    var gs := RowsToGuests(users);
    forall k | 0 <= k < |gs| ensures Listed(gs[k]) {
      ThaiNameIsListed(picks[k].0, picks[k].1);
    }
    FilterKeepsAll(gs, Listed);
  }
}
