/** The column-type classifier of src/miniUtils.py: the internal token type
    of a SQL column type, decided by an ordered chain of substring, prefix
    and equality tests on the lower-cased first word of the type. */
module MiniUtils {
  import opened Wrappers
  import opened Text

  datatype TokenType =
    | Integer
    | StringConstant
    | Decimal
    | Date
    | Time
    | Timestamp
    | Blob
    | Set
    | InvalidType

  /** The lower-cased text before the first space: the only part examined. */
  function BaseType(sqlType: string): string {
    Lower(BeforeFirst(sqlType, ' '))
  }

  /** `'int' in t or re.match('bool|bit|year', t)` */
  predicate IsIntegerType(t: string) {
    Contains(t, "int") || StartsWith(t, "bool") || StartsWith(t, "bit") || StartsWith(t, "year")
  }

  /** `'char' in t or re.search('binary|enum', t)` */
  predicate IsStringType(t: string) {
    Contains(t, "char") || Contains(t, "binary") || Contains(t, "enum")
  }

  /** `re.match('dec|num|double|float|fix', t)` */
  predicate IsDecimalType(t: string) {
    StartsWith(t, "dec") || StartsWith(t, "num") || StartsWith(t, "double")
    || StartsWith(t, "float") || StartsWith(t, "fix")
  }

  predicate IsBlobType(t: string) {
    Contains(t, "blob") || Contains(t, "text")
  }

  /** The intended classification, the first test that matches winning;
      datetimes and timestamps are TIMESTAMP. */
  function SqlTypeToInternalType(sqlType: string): TokenType
  {
    TypeOfBase(BaseType(sqlType))
  }

  /** The chain of tests on the base type. */
  function TypeOfBase(t: string): TokenType
  {
    if IsIntegerType(t) then Integer
    else if IsStringType(t) then StringConstant
    else if IsDecimalType(t) then Decimal
    else if t == "date" then Date
    else if t == "time" then Time
    else if Contains(t, "time") then Timestamp
    else if IsBlobType(t) then Blob
    else if t == "set" then Set
    else InvalidType
  }

  /** sqlTypeToInternalType as written: the datetime/timestamp branch
      assigns a misspelled local, so the return raises UnboundLocalError,
      shown as None. */
  function SqlTypeToInternalTypeAsWritten(sqlType: string): Option<TokenType>
  {
    TypeOfBaseAsWritten(BaseType(sqlType))
  }

  function TypeOfBaseAsWritten(t: string): Option<TokenType>
  {
    if IsIntegerType(t) then Some(Integer)
    else if IsStringType(t) then Some(StringConstant)
    else if IsDecimalType(t) then Some(Decimal)
    else if t == "date" then Some(Date)
    else if t == "time" then Some(Time)
    else if Contains(t, "time") then None
    else if IsBlobType(t) then Some(Blob)
    else if t == "set" then Some(Set)
    else Some(InvalidType)
  }

  /** As written, the function fails exactly where the intended one answers
      TIMESTAMP, and agrees with it everywhere else. */
  lemma AsWrittenFailsOnTimestamps(sqlType: string)
    ensures SqlTypeToInternalTypeAsWritten(sqlType).None? <==> SqlTypeToInternalType(sqlType) == Timestamp
    ensures SqlTypeToInternalType(sqlType) != Timestamp
            ==> SqlTypeToInternalTypeAsWritten(sqlType) == Some(SqlTypeToInternalType(sqlType))
  {
  }

  lemma {:induction false} LowerIdempotent(s: string)
    ensures Lower(Lower(s)) == Lower(s)
  {
    assert forall i :: 0 <= i < |s| ==> ToLower(ToLower(s[i])) == ToLower(s[i]);
  }

  lemma {:induction false} BeforeFirstLower(s: string, c: char)
    requires !IsAlpha(c)
    ensures BeforeFirst(Lower(s), c) == Lower(BeforeFirst(s, c))
    decreases |s|
  {
    if |s| > 0 {
      var ls := Lower(s);
      assert ls[0] == ToLower(s[0]) && ls[1..] == Lower(s[1..]);
      assert ls[0] == c <==> s[0] == c;
      BeforeFirstLower(s[1..], c);
      if s[0] != c {
        LowerCons(s[0], BeforeFirst(s[1..], c));
      }
    }
  }

  lemma LowerCons(x: char, t: string)
    ensures Lower([x] + t) == [ToLower(x)] + Lower(t)
  {
    assert forall i :: 1 <= i < |t| + 1 ==> ([x] + t)[i] == t[i - 1];
  }

  /** The classification ignores letter case. */
  lemma CaseInsensitive(sqlType: string)
    ensures SqlTypeToInternalType(Lower(sqlType)) == SqlTypeToInternalType(sqlType)
  {
    BaseTypeLower(sqlType);
  }

  lemma BaseTypeLower(sqlType: string)
    ensures BaseType(Lower(sqlType)) == BaseType(sqlType)
  {
    BeforeFirstLower(sqlType, ' ');
    LowerIdempotent(BeforeFirst(sqlType, ' '));
  }

  lemma {:induction false} BeforeFirstAppend(word: string, rest: string, c: char)
    requires c !in word
    ensures BeforeFirst(word + [c] + rest, c) == word
    decreases |word|
  {
    if |word| > 0 {
      assert (word + [c] + rest)[1..] == word[1..] + [c] + rest;
      BeforeFirstAppend(word[1..], rest, c);
      assert [word[0]] + word[1..] == word;
    }
  }

  /** Only the first word counts: modifiers after the first space change nothing. */
  lemma FirstWordOnly(word: string, rest: string)
    requires ' ' !in word
    ensures SqlTypeToInternalType(word + " " + rest) == SqlTypeToInternalType(word)
  {
    BeforeFirstAppend(word, rest, ' ');
    assert BaseType(word + " " + rest) == BaseType(word);
  }

  /** A type whose first word holds "int" anywhere is INTEGER, whatever
      later test it would also pass. */
  lemma IntegerWins(sqlType: string, i: nat)
    requires var t := BaseType(sqlType); i + 3 <= |t| && t[i..i + 3] == "int"
    ensures SqlTypeToInternalType(sqlType) == Integer
  {
    ContainsAt(BaseType(sqlType), "int", i);
  }

  lemma PointBase()
    ensures |BaseType("POINT")| == 5 && BaseType("POINT")[2..5] == "int"
  {
    var w := "POINT";
    assert ' ' !in w;
    var t := BaseType(w);
    assert t == Lower(w);
    assert t[2] == 'i' && t[3] == 'n' && t[4] == 't';
  }

  /** For example, `POINT NOT NULL` is INTEGER: whatever follows, a type
      whose first word is `POINT` is INTEGER, since `point` contains `int`. */
  lemma PointIsInteger(rest: string)
    ensures SqlTypeToInternalType("POINT " + rest) == Integer
  {
    assert "POINT " + rest == "POINT" + " " + rest;
    assert ' ' !in "POINT";
    FirstWordOnly("POINT", rest);
    PointBase();
    IntegerWins("POINT", 2);
  }

  lemma TimestampNotInteger()
    ensures !Contains("timestamp", "int")
  {
    NotContainsPair("timestamp", "int");
  }

  lemma TimestampNotString()
    ensures !Contains("timestamp", "char") && !Contains("timestamp", "binary") && !Contains("timestamp", "enum")
  {
    TimestampNotChar();
    TimestampNotBinary();
    TimestampNotEnum();
  }

  lemma TimestampNotChar()
    ensures !Contains("timestamp", "char")
  {
    NotContainsPair("timestamp", "char");
  }

  lemma TimestampNotBinary()
    ensures !Contains("timestamp", "binary")
  {
    NotContainsPair("timestamp", "binary");
  }

  lemma TimestampNotEnum()
    ensures !Contains("timestamp", "enum")
  {
    NotContainsPair("timestamp", "enum");
  }

  lemma TimestampBase()
    ensures BaseType("timestamp") == "timestamp"
  {
    var s := "timestamp";
    assert ' ' !in s;
    assert forall i :: 0 <= i < |s| ==> !IsUpper(s[i]);
    var l := Lower(s);
    assert forall i :: 0 <= i < |s| ==> l[i] == s[i];
  }

  lemma TimestampPrefixes()
    ensures !StartsWith("timestamp", "bool") && !StartsWith("timestamp", "bit") && !StartsWith("timestamp", "year")
    ensures !IsDecimalType("timestamp")
    ensures "timestamp" != "date" && "timestamp" != "time" && Contains("timestamp", "time")
  {
    var t := "timestamp";
    assert t[..4] == "time";
    assert t[0] == 't';
    NotStartsWith(t, "bool");
    NotStartsWith(t, "bit");
    NotStartsWith(t, "year");
    NotStartsWith(t, "dec");
    NotStartsWith(t, "num");
    NotStartsWith(t, "double");
    NotStartsWith(t, "float");
    NotStartsWith(t, "fix");
  }

  /** ... and `timestamp` fails as written. */
  lemma TimestampFailsAsWritten()
    ensures SqlTypeToInternalTypeAsWritten("timestamp") == None
    ensures SqlTypeToInternalType("timestamp") == Timestamp
  {
    TimestampBase();
    TimestampNotInteger();
    TimestampNotString();
    TimestampPrefixes();
  }
}
