/** The result-code check every SWFT call passes its envelope through
    (`evaluateSWFTResponse`, functions/src/provider/swft.provider.ts). */
module SwftProvider {
  import opened Wrappers
  import opened JsBuiltins

  /** A result code as the caller hands it over: a string or an integer. */
  datatype ResCode = TextCode(text: string) | IntCode(n: int)

  /** The only code that means success. */
  const OkCode: int := 800

  /** The fixed table from result code to message (`codes`); `None` for a
      code the table does not hold. Codes 901 and 907 share their text. */
  function CodeText(code: int): Option<string>
  {
    match code
    case 800 => Some("OK")
    case 900 => Some("internal server error")
    case 901 => Some("missing required parameters")
    case 902 => Some("system starting…")
    case 903 => Some("authentication fail")
    case 904 => Some("message decode fail")
    case 905 => Some("message processing fail")
    case 906 => Some("system exception")
    case 907 => Some("missing required parameters")
    case 908 => Some("sending message fail")
    case 909 => Some("check sign fail")
    case 910 => Some("receive success")
    case 911 => Some("system fail")
    case 912 => Some("order not found")
    case 913 => Some("deposit coin not exist")
    case 914 => Some("receive coin not exist")
    case 915 => Some("deposit coin and receive coin can not be the same")
    case 916 => Some("target address not legal")
    case 917 => Some("refund address not legal")
    case 918 => Some("target address and refund address can not be the same")
    case 919 => Some("deposit coin amount is not legal")
    case 920 => Some("receive coin amount not legal")
    case 921 => Some("deposit coin amount not in legal range")
    case 922 => Some("do not accept terms")
    case 923 => Some("SWFTC address not legal")
    case 924 => Some("transfer method does not exist")
    case 950 => Some("username/password is wrong")
    case 951 => Some("not logged in")
    case 952 => Some("withdraw fail！Your withdraw interval is ：[0.006,0.008]")
    case 953 => Some("wallet address not exist")
    case 954 => Some("withdraw amount not legal")
    case 955 => Some("user initialization fail")
    case 956 => Some("account has registerd")
    case 957 => Some("phone/mail not legal")
    case 958 => Some("password is too simple")
    case 959 => Some("password is not consistent")
    case 962 => Some("origin password is wrong")
    case 963 => Some("email format error")
    case 964 => Some("username does not exist")
    case 965 => Some("timeout, please retry")
    case 966 => Some("sign does not exist")
    case 967 => Some("language code not exist")
    case 968 => Some("withdraw fail！Please verify that you account has avaliableAmount CODE")
    case 969 => Some("send verification code fail")
    case 970 => Some("phone format error")
    case 971 => Some("verification code outdated")
    case 972 => Some("operation too frequent, retry later")
    case 973 => Some("withdraw address should not be your account address")
    case 974 => Some("coin was added before")
    case 975 => Some("result not found")
    case 976 => Some("remark is too long (over 20 chars)")
    case 977 => Some("exceeded daily request verification limit, time out limit")
    case 978 => Some("platform source non-existent")
    case 979 => Some("password error")
    case 980 => Some("SMS verification error")
    case 981 => Some("email verification error")
    case 982 => Some("email unlinked, please first link email")
    case 983 => Some("verification code type doesn't exist")
    case 984 => Some("verification code error")
    case 985 => Some("email already linked to another account")
    case 986 => Some("phone number already linked to another account")
    case 987 => Some("login unsuccessful, login attempts exceeded limit")
    case 988 => Some("exceeded daily password change limit")
    case 989 => Some("account already linked, please contact customer service")
    case 990 => Some("account already linked to google authentification")
    case 991 => Some("please first link google authenticator")
    case 992 => Some("GA password error")
    case 993 => Some("touch ID not enabled")
    case _ => None
  }

  /** The numeric code looked up: a string goes through `parseInt`;
      `None` stands for NaN. */
  function NumericCode(code: ResCode): Option<int>
  {
    match code
    case TextCode(text) => ParseInt(text)
    case IntCode(n) => Some(n)
  }

  /** `codes[swftCode]`: the table's text, or `None` for `undefined` when
      the code is NaN or not in the table. */
  function Message(swftCode: Option<int>): Option<string>
  {
    if swftCode.Some? then CodeText(swftCode.value) else None
  }

  /** `evaluateSWFTResponse(code, throwOnError)`. `Failure(m)` is the thrown
      error with message `m`; `Success(m)` is the returned text. It fails
      exactly when the code is not 800 and `throwOnError` is set, and either
      way carries the table's text for the code. */
  function Evaluate(code: ResCode, throwOnError: bool): (r: Result<Option<string>, Option<string>>)
    ensures r.Failure? <==> throwOnError && NumericCode(code) != Some(OkCode)
    ensures r.Success? ==> r.value == Message(NumericCode(code))
    ensures r.Failure? ==> r.error == Message(NumericCode(code))
  {
    var swftCode := NumericCode(code);
    if swftCode != Some(OkCode) && throwOnError then Failure(Message(swftCode))
    else Success(Message(swftCode))
  }

  /** `parseInt("800")` is 800. */
  lemma OkCodeText()
    ensures ParseInt("800") == Some(800)
  {
    var d := DecimalText(800);
    assert d == "800";
    DecimalTextValue(800);
    ParseIntDigits(d);
  }

  /** Code 800, as a number or as its text, never fails and answers "OK". */
  lemma OkNeverFails(throwOnError: bool)
    ensures Evaluate(IntCode(800), throwOnError) == Success(Some("OK"))
    ensures Evaluate(TextCode("800"), throwOnError) == Success(Some("OK"))
  {
    OkCodeText();
  }

  /** Two codes with the same numeric value are evaluated alike. */
  lemma SameNumericCode(c1: ResCode, c2: ResCode, throwOnError: bool)
    requires NumericCode(c1) == NumericCode(c2)
    ensures Evaluate(c1, throwOnError) == Evaluate(c2, throwOnError)
  {
  }

  /** In throwing mode every code other than 800 fails with the table's text
      for that code; in non-throwing mode nothing fails. */
  lemma ThrowingModes(code: ResCode)
    ensures NumericCode(code) != Some(800) ==> Evaluate(code, true) == Failure(Message(NumericCode(code)))
    ensures Evaluate(code, false) == Success(Message(NumericCode(code)))
  {
  }

  /** A code given as its decimal text behaves exactly as the integer itself. */
  lemma TextAndIntegerAgree(n: int, throwOnError: bool)
    ensures Evaluate(TextCode(IntegerText(n)), throwOnError) == Evaluate(IntCode(n), throwOnError)
  {
    ParseIntIntegerText(n);
  }

  /** Entries of the table, read through the evaluation. */
  lemma TableEntries()
    ensures Evaluate(IntCode(912), true) == Failure(Some("order not found"))
    ensures Evaluate(IntCode(915), true) == Failure(Some("deposit coin and receive coin can not be the same"))
    ensures Evaluate(IntCode(901), false) == Evaluate(IntCode(907), false)
    ensures Evaluate(IntCode(901), false) == Success(Some("missing required parameters"))
  {
  }

  /** A code outside the table carries no message, and fails exactly when
      throwing. */
  lemma UnknownCodes(n: int, throwOnError: bool)
    requires CodeText(n).None?
    ensures Evaluate(IntCode(n), throwOnError) == if throwOnError then Failure(None) else Success(None)
  {
  }

  /** Text whose first character after the white space is neither a sign
      nor a digit is NaN: no message, and failure when throwing. */
  lemma UnreadableCodes(text: string, throwOnError: bool)
    requires TrimStart(text) == [] ||
      (TrimStart(text)[0] != '-' && TrimStart(text)[0] != '+' && DigitValue(TrimStart(text)[0], 10).None?)
    ensures Evaluate(TextCode(text), throwOnError) == if throwOnError then Failure(None) else Success(None)
  {
    ParseIntNoDigit(text);
  }

  /** Leading white space in a text code is skipped. */
  lemma LeadingWhiteSpaceCode(text: string, throwOnError: bool)
    ensures Evaluate(TextCode(text), throwOnError) == Evaluate(TextCode(TrimStart(text)), throwOnError)
  {
    ParseIntSkipsWhiteSpace(text);
    SameNumericCode(TextCode(text), TextCode(TrimStart(text)), throwOnError);
  }

  /** Text after the digits of a code is ignored, unless it turns the code
      `0` into a `0x` prefix. */
  lemma TrailingTextCode(n: nat, rest: string, throwOnError: bool)
    requires rest == [] || (DigitValue(rest[0], 10).None? && !(n == 0 && (rest[0] == 'x' || rest[0] == 'X')))
    ensures Evaluate(TextCode(DecimalText(n) + rest), throwOnError) == Evaluate(IntCode(n), throwOnError)
  {
    var t := DecimalText(n);
    if n != 0 {
      DecimalTextZero(n);
    }
    ParseIntStopsAtNonDigit(t, rest);
    ParseIntDigits(t);
    DecimalTextValue(n);
    SameNumericCode(TextCode(t + rest), IntCode(n), throwOnError);
  }

  /** A `0x` or `0X` prefix makes a text code hexadecimal. */
  lemma HexadecimalCode(x: char, digits: string, throwOnError: bool)
    requires x == 'x' || x == 'X'
    requires |digits| >= 1 && AllDigits(digits, 16)
    ensures Evaluate(TextCode(['0', x] + digits), throwOnError) == Evaluate(IntCode(DigitsValue(digits, 16)), throwOnError)
  {
    ParseIntHex(x, digits);
    SameNumericCode(TextCode(['0', x] + digits), IntCode(DigitsValue(digits, 16)), throwOnError);
  }
}
