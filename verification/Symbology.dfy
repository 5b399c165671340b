/** Contract symbols: the printer, the parser, and how far each inverts the other. Text is ASCII. */
module Symbology {
  import opened Arithmetic
  import opened Wrappers

  datatype InstrumentClass = EQUITY | INDEX | FUTURE | OPTION

  // ----- dates -------------------------------------------------------------

  datatype Calendar = Date(year: int, month: int, day: int)
  type Date = d: Calendar | ValidDate(d.year, d.month, d.day) witness Date(2000, 1, 1)

  predicate LeapYear(year: int)
  {
    year % 4 == 0 && (year % 100 != 0 || year % 400 == 0)
  }

  function DaysIn(year: int, month: int): int
  {
    if month == 2 then (if LeapYear(year) then 29 else 28)
    else if month == 4 || month == 6 || month == 9 || month == 11 then 30
    else 31
  }

  predicate ValidDate(year: int, month: int, day: int)
  {
    1 <= year <= 9999 && 1 <= month <= 12 && 1 <= day <= DaysIn(year, month)
  }

  // ----- text --------------------------------------------------------------

  predicate IsDigit(c: char)
  {
    '0' <= c <= '9'
  }

  predicate AllDigits(s: string)
  {
    forall i :: 0 <= i < |s| ==> IsDigit(s[i])
  }

  function DigitOf(n: nat): (c: char)
    requires n < 10
    ensures IsDigit(c) && ValueOf(c) == n
  {
    n as char + '0'
  }

  function ValueOf(c: char): (n: nat)
    requires IsDigit(c)
    ensures n < 10
  {
    (c - '0') as nat
  }

  /** The last `w` decimal digits of n, zero-padded. */
  function Digits(n: nat, w: nat): (s: string)
    ensures |s| == w && AllDigits(s)
  {
    if w == 0 then "" else Digits(n / 10, w - 1) + [DigitOf(n % 10)]
  }

  function Number(s: string): (n: nat)
    requires AllDigits(s)
    ensures n < Pow10(|s|)
  {
    if s == "" then 0 else 10 * Number(s[..|s| - 1]) + ValueOf(s[|s| - 1])
  }

  lemma {:induction false} NumberOfDigits(n: nat, w: nat)
    requires n < Pow10(w)
    ensures Number(Digits(n, w)) == n
  {
    if w > 0 {
      NumberOfDigits(n / 10, w - 1);
      assert Digits(n, w)[..w - 1] == Digits(n / 10, w - 1);
    }
  }

  lemma {:induction false} DigitsOfNumber(s: string)
    requires AllDigits(s)
    ensures Digits(Number(s), |s|) == s
  {
    if s != "" {
      var front := s[..|s| - 1];
      DigitsOfNumber(front);
      assert Number(s) / 10 == Number(front) && Number(s) % 10 == ValueOf(s[|s| - 1]);
      assert s == front + [s[|s| - 1]];
    }
  }

  function UpperChar(c: char): char
  {
    if 'a' <= c <= 'z' then c - ' ' else c
  }

  function Upper(s: string): (u: string)
    ensures |u| == |s|
  {
    seq(|s|, i requires 0 <= i < |s| => UpperChar(s[i]))
  }

  predicate IsUpper(s: string)
  {
    Upper(s) == s
  }

  /** s[-n:] and s[:-n], which clip rather than fail on a short string. */
  function Last(s: string, n: nat): (t: string)
    ensures |t| == if |s| < n then |s| else n
  {
    if |s| < n then s else s[|s| - n..]
  }

  function DropLast(s: string, n: nat): (t: string)
  {
    if |s| < n then "" else s[..|s| - n]
  }

  lemma Split(front: string, back: string)
    ensures Last(front + back, |back|) == back && DropLast(front + back, |back|) == front
  {
  }

  lemma Join(s: string, n: nat)
    ensures DropLast(s, n) + Last(s, n) == s
  {
  }

  // ----- contracts ---------------------------------------------------------

  /** A strike, and whether the caller gave it as an exact Decimal. */
  datatype Strike = Exact(rupees: real) | NotDecimal

  datatype ContractKey = ContractKey(
    underlying: string,
    instrumentClass: InstrumentClass,
    expiry: Maybe<Date>,
    strike: Maybe<Strike>,
    right: Maybe<string>)

  datatype SymbolError =
    | NeedsExpiry
    | BadRight
    | NeedsStrike
    | StrikeNotDecimal
    | FinerThanPaise
    | DoesNotFit
    | EmptySymbol

  const STRIKE_DIGITS: nat := 9
  const EXPIRY_LEN: nat := 6
  const MAX_PAISE: int := 1_000_000_000

  function StrikeToPaise(strike: Strike): (r: Result<nat, SymbolError>)
  {
    match strike
    case NotDecimal => Err(StrikeNotDecimal)
    case Exact(rupees) =>
      var paise := rupees * 100.0;
      if paise != paise.Floor as real then Err(FinerThanPaise)
      else if paise.Floor < 0 || paise.Floor >= MAX_PAISE then Err(DoesNotFit)
      else Ok(paise.Floor)
  }

  function TwoDigits(tens: char, units: char): (n: nat)
    requires IsDigit(tens) && IsDigit(units)
    ensures n < 100
  {
    10 * ValueOf(tens) + ValueOf(units)
  }

  function TwoChars(n: nat): (s: string)
    requires n < 100
    ensures |s| == 2 && AllDigits(s) && TwoDigits(s[0], s[1]) == n
  {
    [DigitOf(n / 10), DigitOf(n % 10)]
  }

  /** %y%m%d. */
  function Stamp(d: Date): (s: string)
    ensures |s| == EXPIRY_LEN && AllDigits(s)
  {
    TwoChars(d.year % 100) + TwoChars(d.month) + TwoChars(d.day)
  }

  predicate IsRight(s: string)
  {
    s == "CE" || s == "PE"
  }

  function ToSymbol(key: ContractKey): (r: Result<string, SymbolError>)
  {
    var cls := key.instrumentClass;
    if cls.EQUITY? || cls.INDEX? then Ok(Upper(key.underlying))
    else if key.expiry.None? then Err(NeedsExpiry)
    else
      var stamp := Stamp(key.expiry.value);
      if cls.FUTURE? then Ok(Upper(key.underlying) + stamp + "FUT")
      else if key.right.None? || !IsRight(key.right.value) then Err(BadRight)
      else if key.strike.None? then Err(NeedsStrike)
      else
        match StrikeToPaise(key.strike.value)
        case Err(error) => Err(error)
        case Ok(paise) =>
          Ok(Upper(key.underlying) + stamp + Digits(paise, STRIKE_DIGITS) + key.right.value)
  }

  /**
   * strptime(stamp, "%y%m%d") on six characters: years pivot at 69, and the
   * day's tens may be a space.
   */
  function TryDate(stamp: string): (d: Maybe<Date>)
    requires |stamp| == EXPIRY_LEN
  {
    if (forall i :: 0 <= i < 6 && i != 4 ==> IsDigit(stamp[i])) && (IsDigit(stamp[4]) || stamp[4] == ' ') then
      var yy, month := TwoDigits(stamp[0], stamp[1]), TwoDigits(stamp[2], stamp[3]);
      var day := if stamp[4] == ' ' then ValueOf(stamp[5]) else TwoDigits(stamp[4], stamp[5]);
      var year := if yy >= 69 then 1900 + yy else 2000 + yy;
      if ValidDate(year, month, day) then Some(Date(year, month, day)) else None
    else None
  }

  function ExpiryAtEnd(head: string): Maybe<Date>
  {
    if |head| > EXPIRY_LEN then TryDate(Last(head, EXPIRY_LEN)) else None
  }

  function AsOption(symbol: string): Maybe<ContractKey>
  {
    var right := Last(symbol, 2);
    if !IsRight(right) then None
    else
      var head := DropLast(symbol, 2);
      var digits := Last(head, STRIKE_DIGITS);
      if |digits| < STRIKE_DIGITS || !AllDigits(digits) then None
      else
        var head' := DropLast(head, STRIKE_DIGITS);
        var expiry := ExpiryAtEnd(head');
        if expiry.None? then None
        else Some(ContractKey(DropLast(head', EXPIRY_LEN), OPTION, expiry,
                              Some(Exact(Number(digits) as real / 100.0)), Some(right)))
  }

  function AsFuture(symbol: string): Maybe<ContractKey>
  {
    if Last(symbol, 3) != "FUT" then None
    else
      var head := DropLast(symbol, 3);
      var expiry := ExpiryAtEnd(head);
      if expiry.None? then None
      else Some(ContractKey(DropLast(head, EXPIRY_LEN), FUTURE, expiry, None, None))
  }

  function ParseSymbol(symbol: string): (r: Result<ContractKey, SymbolError>)
  {
    if symbol == "" then Err(EmptySymbol)
    else if AsOption(symbol).Some? then Ok(AsOption(symbol).value)
    else if AsFuture(symbol).Some? then Ok(AsFuture(symbol).value)
    else Ok(ContractKey(symbol, EQUITY, None, None, None))
  }

  // ----- dates round trip --------------------------------------------------

  predicate InWindow(d: Date)
  {
    1969 <= d.year <= 2068
  }

  lemma TryOfStamp(d: Date)
    ensures TryDate(Stamp(d)) == Some(d) <==> InWindow(d)
  {
    var s := Stamp(d);
    var y, m, n := TwoChars(d.year % 100), TwoChars(d.month), TwoChars(d.day);
    assert s[0] == y[0] && s[1] == y[1] && s[2] == m[0] && s[3] == m[1] && s[4] == n[0] && s[5] == n[1];
  }

  lemma TwoCharsOfDigits(tens: char, units: char)
    requires IsDigit(tens) && IsDigit(units)
    ensures TwoChars(TwoDigits(tens, units)) == [tens, units]
  {
  }

  lemma TryIsFields(stamp: string)
    requires |stamp| == EXPIRY_LEN && TryDate(stamp).Some?
    ensures IsDigit(stamp[0]) && IsDigit(stamp[1]) && IsDigit(stamp[2]) && IsDigit(stamp[3]) && IsDigit(stamp[5])
    ensures stamp[4] == ' ' || IsDigit(stamp[4])
    ensures
      var d := TryDate(stamp).value;
      && d.year % 100 == TwoDigits(stamp[0], stamp[1]) && d.month == TwoDigits(stamp[2], stamp[3])
      && (stamp[4] != ' ' ==> d.day == TwoDigits(stamp[4], stamp[5]))
  {
    hide ValidDate;
  }

  lemma {:induction false} StampOfTry(stamp: string)
    requires |stamp| == EXPIRY_LEN && TryDate(stamp).Some?
    ensures Stamp(TryDate(stamp).value) == stamp <==> stamp[4] != ' '
  {
    hide TryDate, TwoChars, TwoDigits, LeapYear, DaysIn;
    TryIsFields(stamp);
    var s := Stamp(TryDate(stamp).value);
    assert IsDigit(s[4]);
    if stamp[4] != ' ' {
      TwoCharsOfDigits(stamp[0], stamp[1]);
      TwoCharsOfDigits(stamp[2], stamp[3]);
      TwoCharsOfDigits(stamp[4], stamp[5]);
      assert s == [stamp[0], stamp[1]] + [stamp[2], stamp[3]] + [stamp[4], stamp[5]];
    }
  }

  /** The months and days there are, in the two-digit years a stamp can carry, of which every fourth leaps. */
  predicate IsDay(yy: nat, month: nat, day: nat)
  {
    1 <= month <= 12 && 1 <= day <= 31
    && (day == 31 ==> month in {1, 3, 5, 7, 8, 10, 12})
    && (day == 30 ==> month != 2)
    && (day == 29 && month == 2 ==> yy % 4 == 0)
  }

  /** Exactly which six digits are a date, and which date: year, month and day, the years from 1969 to 2068. */
  lemma {:induction false} WhichStampsAreDates(yy: nat, month: nat, day: nat)
    requires yy < 100 && month < 100 && day < 100
    ensures
      var d := TryDate(TwoChars(yy) + TwoChars(month) + TwoChars(day));
      && (d.Some? <==> IsDay(yy, month, day))
      && (d.Some? ==> d.value.year == (if yy >= 69 then 1900 + yy else 2000 + yy)
                      && d.value.month == month && d.value.day == day)
  {
    hide TwoChars, TwoDigits, LeapYear;
    var y, m, n := TwoChars(yy), TwoChars(month), TwoChars(day);
    var stamp := y + m + n;
    assert stamp[0] == y[0] && stamp[1] == y[1] && stamp[2] == m[0] && stamp[3] == m[1];
    assert stamp[4] == n[0] && stamp[5] == n[1];
    var year := if yy >= 69 then 1900 + yy else 2000 + yy;
    EveryFourthLeaps(year);
  }

  lemma EveryFourthLeaps(year: int)
    requires 1969 <= year <= 2068
    ensures LeapYear(year) <==> year % 100 % 4 == 0
  {
  }

  // ----- shapes ------------------------------------------------------------

  lemma LastExpiry(u: string, stamp: string)
    requires |stamp| == EXPIRY_LEN
    ensures ExpiryAtEnd(u + stamp) == if u == "" then None else TryDate(stamp)
    ensures DropLast(u + stamp, EXPIRY_LEN) == u
  {
    Split(u, stamp);
  }

  function OptionKey(u: string, expiry: Date, paise: nat, right: string): ContractKey
  {
    ContractKey(u, OPTION, Some(expiry), Some(Exact(paise as real / 100.0)), Some(right))
  }

  /** What the parser makes of the printer's option shape, whatever fills it. */
  lemma {:induction false} OptionShape(u: string, stamp: string, digits: string, right: string)
    requires |stamp| == EXPIRY_LEN && |digits| == STRIKE_DIGITS && AllDigits(digits) && IsRight(right)
    ensures
      var s := u + stamp + digits + right;
      && AsFuture(s) == None
      && AsOption(s) ==
        if u == "" || TryDate(stamp).None? then None
        else Some(OptionKey(u, TryDate(stamp).value, Number(digits), right))
  {
    hide TryDate, ExpiryAtEnd;
    var s := u + stamp + digits + right;
    Split(u + stamp + digits, right);
    Split(u + stamp, digits);
    LastExpiry(u, stamp);
    assert Last(s, 3)[1..] == right;
  }

  /**
   * An underlying, a leap day, a strike and a right are an option of that day
   * in every fourth year, and a plain name in any other.
   */
  lemma {:induction false} LeapDaysAreContracts(u: string, yy: nat, digits: string, right: string)
    requires u != "" && yy < 100 && |digits| == 9 && AllDigits(digits) && (right == "CE" || right == "PE")
    ensures
      var s := u + TwoChars(yy) + "0229" + digits + right;
      var year := if yy >= 69 then 1900 + yy else 2000 + yy;
      if yy % 4 == 0 then
        ValidDate(year, 2, 29)
        && ParseSymbol(s)
          == Ok(ContractKey(u, OPTION, Some(Date(year, 2, 29)), Some(Exact(Number(digits) as real / 100.0)), Some(right)))
      else ParseSymbol(s) == Ok(ContractKey(s, EQUITY, None, None, None))
  {
    hide TryDate, AsOption, AsFuture, Number, TwoChars, LeapYear;
    var stamp := TwoChars(yy) + TwoChars(2) + TwoChars(29);
    SecondMonth();
    assert stamp == TwoChars(yy) + ("02" + "29") && "02" + "29" == "0229";
    assert u + stamp == u + TwoChars(yy) + "0229";
    OptionShape(u, stamp, digits, right);
    WhichStampsAreDates(yy, 2, 29);
    EveryFourthLeaps(if yy >= 69 then 1900 + yy else 2000 + yy);
  }

  lemma SecondMonth()
    ensures TwoChars(2) == "02" && TwoChars(29) == "29"
  {
  }

  lemma FutureShape(u: string, stamp: string)
    requires |stamp| == EXPIRY_LEN
    ensures
      var s := u + stamp + "FUT";
      && AsOption(s) == None
      && AsFuture(s) ==
        if u == "" || TryDate(stamp).None? then None
        else Some(ContractKey(u, FUTURE, TryDate(stamp), None, None))
  {
    hide TryDate, ExpiryAtEnd;
    var s := u + stamp + "FUT";
    Split(u + stamp, "FUT");
    LastExpiry(u, stamp);
    assert Last(s, 2) == "UT";
  }

  lemma ExpiryParts(head: string) returns (u: string, stamp: string)
    requires ExpiryAtEnd(head).Some?
    ensures head == u + stamp && u != "" && |stamp| == EXPIRY_LEN && TryDate(stamp) == ExpiryAtEnd(head)
    ensures u == DropLast(head, EXPIRY_LEN)
  {
    hide TryDate;
    u, stamp := DropLast(head, EXPIRY_LEN), Last(head, EXPIRY_LEN);
  }

  lemma OptionParts(s: string) returns (u: string, stamp: string, digits: string, right: string)
    requires AsOption(s).Some?
    ensures s == u + stamp + digits + right && u != "" && |stamp| == EXPIRY_LEN
    ensures |digits| == STRIKE_DIGITS && AllDigits(digits) && IsRight(right) && TryDate(stamp).Some?
    ensures AsOption(s) == Some(OptionKey(u, TryDate(stamp).value, Number(digits), right))
  {
    hide TryDate, ExpiryAtEnd;
    right := Last(s, 2);
    var head := DropLast(s, 2);
    digits := Last(head, STRIKE_DIGITS);
    u, stamp := ExpiryParts(DropLast(head, STRIKE_DIGITS));
    Join(s, 2);
    Join(head, STRIKE_DIGITS);
  }

  lemma FutureParts(s: string) returns (u: string, stamp: string)
    requires AsFuture(s).Some?
    ensures s == u + stamp + "FUT" && u != "" && |stamp| == EXPIRY_LEN && TryDate(stamp).Some?
    ensures AsFuture(s) == Some(ContractKey(u, FUTURE, TryDate(stamp), None, None))
  {
    hide TryDate, ExpiryAtEnd;
    u, stamp := ExpiryParts(DropLast(s, 3));
    Join(s, 3);
  }

  // ----- which contracts print ---------------------------------------------

  /** A strike of whole paise, under a crore of rupees and not negative. */
  ghost predicate IsPrintableStrike(rupees: real)
  {
    exists paise: nat :: IsPaise(paise, rupees)
  }

  predicate IsPaise(paise: nat, rupees: real)
  {
    paise < 1000000000 && paise as real == rupees * 100.0
  }

  lemma {:induction false} WhichStrikesPrint(rupees: real)
    ensures StrikeToPaise(Exact(rupees)).Ok? <==> IsPrintableStrike(rupees)
  {
    if StrikeToPaise(Exact(rupees)).Ok? {
      assert IsPaise((rupees * 100.0).Floor, rupees);
    }
  }

  /**
   * Why a contract does not print: the first thing it lacks, its expiry before
   * its right, its right before its strike; and then what is wrong with that.
   */
  lemma {:induction false} WhyContractsDoNotPrint(k: ContractKey)
    ensures
      var s, derived, rightly := ToSymbol(k), k.instrumentClass.FUTURE? || k.instrumentClass.OPTION?,
        k.right == Some("CE") || k.right == Some("PE");
      && (s == Err(NeedsExpiry) <==> derived && k.expiry.None?)
      && (s == Err(BadRight) <==> k.instrumentClass.OPTION? && k.expiry.Some? && !rightly)
      && (s == Err(NeedsStrike) <==> k.instrumentClass.OPTION? && k.expiry.Some? && rightly && k.strike.None?)
      && (s == Err(StrikeNotDecimal) <==>
           k.instrumentClass.OPTION? && k.expiry.Some? && rightly && k.strike == Some(NotDecimal))
      && (s.Ok? <==>
           || !derived
           || (k.instrumentClass.FUTURE? && k.expiry.Some?)
           || (k.instrumentClass.OPTION? && k.expiry.Some? && rightly && k.strike.Some? && k.strike.value.Exact?
               && IsPrintableStrike(k.strike.value.rupees)))
  {
    hide Upper, Stamp, Digits, IsPrintableStrike;
    if k.strike.Some? && k.strike.value.Exact? {
      WhichStrikesPrint(k.strike.value.rupees);
    }
  }

  // ----- key to symbol and back --------------------------------------------

  /** The keys a symbol can name. */
  predicate Canonical(k: ContractKey)
  {
    && k.underlying != "" && IsUpper(k.underlying)
    && match k.instrumentClass
       case OPTION => k.expiry.Some? && InWindow(k.expiry.value)
       case FUTURE => k.expiry.Some? && InWindow(k.expiry.value) && k.strike.None? && k.right.None?
       case EQUITY =>
         && k.expiry.None? && k.strike.None? && k.right.None?
         && AsOption(k.underlying).None? && AsFuture(k.underlying).None?
       case INDEX => false
  }

  /** A letter and the same letter, whichever of the two is the capital. */
  predicate SameButCase(c: char, d: char)
  {
    c == d || ('a' <= c <= 'z' && c as int == d as int + 32) || ('a' <= d <= 'z' && d as int == c as int + 32)
  }

  /** Two underlyings print alike exactly when they differ in nothing but casing; what is printed has no small letter. */
  lemma {:induction false} CasingsPrintAlike(a: string, b: string)
    ensures Upper(a) == Upper(b) <==> |a| == |b| && forall i :: 0 <= i < |a| ==> SameButCase(a[i], b[i])
    ensures forall i :: 0 <= i < |a| ==> !('a' <= Upper(a)[i] <= 'z')
  {
    if |a| == |b| {
      forall i | 0 <= i < |a| ensures Upper(a)[i] == Upper(b)[i] <==> SameButCase(a[i], b[i]) {
      }
      if Upper(a) == Upper(b) {
        assert forall i :: 0 <= i < |a| ==> Upper(a)[i] == Upper(b)[i];
      }
    }
  }

  lemma UpperOnce(s: string)
    ensures IsUpper(Upper(s))
  {
  }

  lemma Paise(rupees: real)
    requires StrikeToPaise(Exact(rupees)).Ok?
    ensures
      var p := StrikeToPaise(Exact(rupees)).value;
      p < Pow10(STRIKE_DIGITS) && p as real / 100.0 == rupees
  {
    assert Pow10(3) == 1000;
    assert Pow10(6) == 1000 * Pow10(3);
    assert Pow10(9) == 1000 * Pow10(6);
  }

  lemma {:induction false} PrintedOption(k: ContractKey)
    requires k.instrumentClass.OPTION? && ToSymbol(k).Ok?
    ensures ParseSymbol(ToSymbol(k).value) == Ok(k) <==> Canonical(k)
  {
    hide TryDate, AsOption, AsFuture, Stamp, InWindow, Digits, Number, Upper;
    var u, stamp, right := Upper(k.underlying), Stamp(k.expiry.value), k.right.value;
    var paise := StrikeToPaise(k.strike.value).value;
    var digits := Digits(paise, STRIKE_DIGITS);
    Paise(k.strike.value.rupees);
    NumberOfDigits(paise, STRIKE_DIGITS);
    OptionShape(u, stamp, digits, right);
    TryOfStamp(k.expiry.value);
    UpperOnce(k.underlying);
  }

  lemma {:induction false} PrintedFuture(k: ContractKey)
    requires k.instrumentClass.FUTURE? && ToSymbol(k).Ok?
    ensures ParseSymbol(ToSymbol(k).value) == Ok(k) <==> Canonical(k)
  {
    hide TryDate, AsOption, AsFuture, Stamp, InWindow, Upper;
    FutureShape(Upper(k.underlying), Stamp(k.expiry.value));
    TryOfStamp(k.expiry.value);
    UpperOnce(k.underlying);
  }

  /**
   * For every contract that prints, the parser inverts the printer exactly on
   * the canonical keys: non-empty upper-case underlying, expiry 1969 to 2068,
   * and a bare name only when its whole shape is neither option nor future.
   */
  lemma {:induction false} ParseInvertsPrint(k: ContractKey)
    requires ToSymbol(k).Ok?
    ensures ParseSymbol(ToSymbol(k).value) == Ok(k) <==> Canonical(k)
  {
    match k.instrumentClass
    case OPTION => PrintedOption(k);
    case FUTURE => PrintedFuture(k);
    case EQUITY =>
      hide AsOption, AsFuture;
      UpperOnce(k.underlying);
    case INDEX =>
      hide AsOption, AsFuture;
  }

  // ----- symbol to key and back --------------------------------------------

  /** Upper case where it is printed, and no day written with a space. */
  predicate CanonicalText(s: string)
    requires s != ""
  {
    if AsOption(s).Some? then IsUpper(AsOption(s).value.underlying) && s[|s| - 13] != ' '
    else if AsFuture(s).Some? then IsUpper(AsFuture(s).value.underlying) && s[|s| - 5] != ' '
    else IsUpper(s)
  }

  lemma PaiseOfDigits(digits: string)
    requires |digits| == STRIKE_DIGITS && AllDigits(digits)
    ensures StrikeToPaise(Exact(Number(digits) as real / 100.0)) == Ok(Number(digits))
  {
    assert Pow10(3) == 1000;
    assert Pow10(6) == 1000 * Pow10(3);
    assert Pow10(9) == 1000 * Pow10(6);
  }

  /**
   * For every non-empty symbol, the printer inverts the parser exactly on the
   * texts written the printer's way.
   */
  lemma {:induction false} PrintInvertsParse(s: string)
    requires s != ""
    ensures ParseSymbol(s).Ok?
    ensures ToSymbol(ParseSymbol(s).value) == Ok(s) <==> CanonicalText(s)
  {
    hide TryDate, AsOption, AsFuture, Stamp, Digits, Number, Upper;
    if AsOption(s).Some? {
      var u, stamp, digits, right := OptionParts(s);
      StampOfTry(stamp);
      PaiseOfDigits(digits);
      DigitsOfNumber(digits);
      assert s[|s| - 13] == stamp[4];
      var d := TryDate(stamp).value;
      Apart(Upper(u), Stamp(d), digits + right, u, stamp);
      assert Upper(u) + Stamp(d) + digits + right == Upper(u) + Stamp(d) + (digits + right);
      assert s == u + stamp + (digits + right);
    } else if AsFuture(s).Some? {
      var u, stamp := FutureParts(s);
      StampOfTry(stamp);
      assert s[|s| - 5] == stamp[4];
      Apart(Upper(u), Stamp(TryDate(stamp).value), "FUT", u, stamp);
    }
  }

  lemma Apart(a: string, b: string, c: string, a': string, b': string)
    requires |a| == |a'| && |b| == |b'|
    ensures a + b + c == a' + b' + c <==> a == a' && b == b'
  {
    if a + b + c == a' + b' + c {
      assert a == (a + b + c)[..|a|] && b == (a + b + c)[|a|..|a| + |b|];
      assert a' == (a' + b' + c)[..|a|] && b' == (a' + b' + c)[|a|..|a| + |b|];
    }
  }

  // ----- symbols as identities ---------------------------------------------

  /** No two canonical contracts share a symbol. */
  lemma NoCollision(k: ContractKey, k': ContractKey)
    requires Canonical(k) && Canonical(k') && ToSymbol(k).Ok? && ToSymbol(k) == ToSymbol(k')
    ensures k == k'
  {
    hide ToSymbol, ParseSymbol, Canonical;
    ParseInvertsPrint(k);
    ParseInvertsPrint(k');
  }

  /** Python's order on strings. */
  predicate LexLess(a: string, b: string)
  {
    b != "" && (a == "" || a[0] < b[0] || (a[0] == b[0] && LexLess(a[1..], b[1..])))
  }

  lemma {:induction false} LexConcat(a: string, b: string, a': string, b': string)
    requires |a| == |a'|
    ensures LexLess(a + b, a' + b') <==> LexLess(a, a') || (a == a' && LexLess(b, b'))
    ensures !LexLess(a, a)
  {
    if a == "" {
      assert a + b == b && a' + b' == b';
    } else {
      LexConcat(a[1..], b, a'[1..], b');
      assert (a + b)[1..] == a[1..] + b && (a' + b')[1..] == a'[1..] + b';
      assert a == a' <==> a[0] == a'[0] && a[1..] == a'[1..] by {
        assert a == [a[0]] + a[1..] && a' == [a'[0]] + a'[1..];
      }
    }
  }

  lemma {:induction false} LexDigits(n: nat, m: nat, w: nat)
    requires n < Pow10(w) && m < Pow10(w)
    ensures LexLess(Digits(n, w), Digits(m, w)) <==> n < m
    ensures Digits(n, w) == Digits(m, w) <==> n == m
  {
    hide LexLess, Number;
    NumberOfDigits(n, w);
    NumberOfDigits(m, w);
    if w == 0 {
      LexConcat("", "", "", "");
    } else {
      LexDigits(n / 10, m / 10, w - 1);
      LexConcat(Digits(n / 10, w - 1), [DigitOf(n % 10)], Digits(m / 10, w - 1), [DigitOf(m % 10)]);
      LexOne(DigitOf(n % 10), DigitOf(m % 10));
    }
  }

  lemma LexOne(a: char, b: char)
    ensures LexLess([a], [b]) <==> a < b
  {
  }

  lemma LexThree(a: string, b: string, c: string, a': string, b': string, c': string)
    requires |a| == |a'| && |b| == |b'|
    ensures LexLess(a + b + c, a' + b' + c') <==>
      LexLess(a, a') || (a == a' && (LexLess(b, b') || (b == b' && LexLess(c, c'))))
    ensures a + b + c == a' + b' + c' <==> a == a' && b == b' && c == c'
  {
    hide LexLess;
    LexConcat(a, b, a', b');
    LexConcat(a + b, c, a' + b', c');
    assert a + b == a' + b' <==> a == a' && b == b' by {
      Apart(a, b, "", a', b');
      assert a + b + "" == a + b && a' + b' + "" == a' + b';
    }
    if a + b + c == a' + b' + c' {
      assert c == (a + b + c)[|a + b|..] && c' == (a' + b' + c')[|a + b|..];
      assert a + b == (a + b + c)[..|a + b|] && a' + b' == (a' + b' + c')[..|a + b|];
    }
  }

  lemma LexTwo(n: nat, m: nat)
    requires n < 100 && m < 100
    ensures LexLess(TwoChars(n), TwoChars(m)) <==> n < m
    ensures TwoChars(n) == TwoChars(m) <==> n == m
  {
    var a, b := TwoChars(n), TwoChars(m);
    assert a[1..] == [a[1]] && b[1..] == [b[1]];
    assert LexLess(a[1..], b[1..]) <==> a[1] < b[1];
  }

  predicate DateLess(d: Date, e: Date)
  {
    d.year < e.year || (d.year == e.year && (d.month < e.month || (d.month == e.month && d.day < e.day)))
  }

  lemma LexStamp(d: Date, e: Date)
    requires 2000 <= d.year <= 2068 && 2000 <= e.year <= 2068
    ensures LexLess(Stamp(d), Stamp(e)) <==> DateLess(d, e)
    ensures Stamp(d) == Stamp(e) <==> d == e
  {
    hide LexLess, TwoChars, LeapYear;
    assert d.year % 100 == d.year - 2000 && e.year % 100 == e.year - 2000;
    LexTwo(d.year % 100, e.year % 100);
    LexTwo(d.month, e.month);
    LexTwo(d.day, e.day);
    LexThree(TwoChars(d.year % 100), TwoChars(d.month), TwoChars(d.day),
             TwoChars(e.year % 100), TwoChars(e.month), TwoChars(e.day));
  }

  /** Nearer expiry first, then lower strike, then calls before puts. */
  predicate ContractLess(d: Date, strike: real, right: string, d': Date, strike': real, right': string)
  {
    DateLess(d, d') || (d == d' && (strike < strike' || (strike == strike' && right == "CE" && right' == "PE")))
  }

  /** Within one underlying and from 2000 on, option symbols sort as their contracts do. */
  lemma {:induction false} SymbolsSortAsContracts(k: ContractKey, k': ContractKey)
    requires k.instrumentClass.OPTION? && k'.instrumentClass.OPTION? && k.underlying == k'.underlying
    requires ToSymbol(k).Ok? && ToSymbol(k').Ok?
    requires 2000 <= k.expiry.value.year <= 2068 && 2000 <= k'.expiry.value.year <= 2068
    ensures
      LexLess(ToSymbol(k).value, ToSymbol(k').value) <==>
      ContractLess(k.expiry.value, k.strike.value.rupees, k.right.value,
                   k'.expiry.value, k'.strike.value.rupees, k'.right.value)
  {
    hide LexLess, Stamp, Digits, Upper, DateLess;
    var u := Upper(k.underlying);
    var d, d' := k.expiry.value, k'.expiry.value;
    var p, p' := StrikeToPaise(k.strike.value).value, StrikeToPaise(k'.strike.value).value;
    var r, r' := k.right.value, k'.right.value;
    Paise(k.strike.value.rupees);
    Paise(k'.strike.value.rupees);
    LexStamp(d, d');
    LexDigits(p, p', STRIKE_DIGITS);
    LexRights(r, r');
    var s, s' := Stamp(d), Stamp(d');
    var n, n' := Digits(p, STRIKE_DIGITS), Digits(p', STRIKE_DIGITS);
    LexConcat(u, s, u, s');
    LexConcat(u + s, n, u + s', n');
    LexConcat(u + s + n, r, u + s' + n', r');
    Apart(u, s, "", u, s');
    assert u + s == u + s + "" && u + s' == u + s' + "";
    Apart(u + s, n, "", u + s', n');
    assert u + s + n == u + s + n + "" && u + s' + n' == u + s' + n' + "";
  }

  lemma LexRights(r: string, r': string)
    requires IsRight(r) && IsRight(r')
    ensures LexLess(r, r') <==> r == "CE" && r' == "PE"
  {
    assert r[1..] == "E" && r'[1..] == "E";
    assert "E"[1..] == "";
  }
}
