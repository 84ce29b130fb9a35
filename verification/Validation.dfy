/** What members and admins may write: ticket texts, resolutions, receipts and withdrawal forms
    (modules/ticket/workflow.go, withdrawal.go). */
module Validation {
  import opened Wrappers
  import opened Text
  import opened Catalog
  import CardNumber
  import Money
  import TicketId

  /** The character tables and secret patterns the model does not spell out: unicode letters, decimal
      digits beyond ASCII, and every finding of SensitiveFindings other than a card number. */
  datatype Lexicon = Lexicon(letter: char -> bool, wideDigit: char -> bool, otherFinding: string -> bool)

  /** SensitiveFindings on one text. */
  predicate Sensitive(lex: Lexicon, text: string) {
    CardNumber.HasCard(text, lex.wideDigit) || lex.otherFinding(text)
  }

  function ValidateTicketText(lex: Lexicon, value: string): Result<string, TicketError> {
    if |value| > TEXT_LIMIT || Utf8Len(value) > TEXT_LIMIT then Err(ErrTextLength)
    else
      var text := NormalizeText(value);
      if text == "" then Err(ErrTextEmpty)
      else if Sensitive(lex, text) then Err(ErrSensitive)
      else Ok(text)
  }

  /** The two limits are one: a text is accepted as its normal form, unless it is over 900 bytes, empty or
      sensitive. */
  lemma TextExactly(lex: Lexicon, value: string)
    ensures var text := NormalizeText(value);
            ValidateTicketText(lex, value)
            == if Utf8Len(value) > 900 then Err(ErrTextLength)
               else if text == "" then Err(ErrTextEmpty)
               else if CardNumber.HasCard(text, lex.wideDigit) || lex.otherFinding(text) then Err(ErrSensitive)
               else Ok(text)
  {
    Utf8LenAtLeastRunes(value);
  }

  /** Times are milliseconds since the epoch, so a stored time always parses and is never zero. */
  predicate ValidResolution(lex: Lexicon, text: string, author: string) {
    NormalizeText(text) == text && text != "" && author != "" && ValidateTicketText(lex, text).Ok?
  }

  /** An accepted text is a fixed point of validation, so it stays a valid resolution for good. */
  lemma AcceptedTextStable(lex: Lexicon, value: string)
    requires ValidateTicketText(lex, value).Ok?
    ensures var text := ValidateTicketText(lex, value).value;
            && ValidateTicketText(lex, text) == Ok(text)
            && (forall author :: author != "" ==> ValidResolution(lex, text, author))
  {
    NormalizeIdempotent(value);
    Utf8LenAtLeastRunes(NormalizeText(value));
  }

  // Receipts

  predicate IsAlnum(c: char) { IsUpper(c) || IsDigit(c) }

  predicate IsRefChar(c: char) { IsAlnum(c) || c == '.' || c == '_' || c == '/' || c == '-' }

  /** ^[A-Z0-9][A-Z0-9._/-]*$ */
  predicate RefPattern(s: string) {
    s != [] && IsAlnum(s[0]) && forall i :: 0 <= i < |s| ==> IsRefChar(s[i])
  }

  predicate AllAlnum(s: string) { forall i :: 0 <= i < |s| ==> IsAlnum(s[i]) }

  predicate IbanPattern(s: string) {
    && 15 <= |s| <= 34 && IsUpper(s[0]) && IsUpper(s[1]) && IsDigit(s[2]) && IsDigit(s[3])
    && AllAlnum(s[4..])
  }

  predicate EthPattern(s: string) {
    && |s| >= 42 && s[0] == '0' && s[1] == 'X'
    && forall i :: 2 <= i < |s| ==> IsDigit(s[i]) || 'A' <= s[i] <= 'F'
  }

  predicate BtcPattern(s: string) {
    || (28 <= |s| <= 93 && s[..3] == "BC1" && AllAlnum(s[3..]))
    || (26 <= |s| <= 91 && s[0] in {'1', '3'} && AllAlnum(s[1..]))
  }

  function Unpunctuated(s: string): string {
    if s == [] then []
    else if IsAlnum(s[0]) then [s[0]] + Unpunctuated(s[1..])
    else Unpunctuated(s[1..])
  }

  /** A bank account or wallet in place of a receipt. */
  predicate LooksLikeAccount(s: string) {
    || (|Unpunctuated(s)| >= 8 && forall i :: 0 <= i < |Unpunctuated(s)| ==> IsDigit(Unpunctuated(s)[i]))
    || IbanPattern(s) || EthPattern(s) || BtcPattern(s)
  }

  function ValidatePaymentReference(lex: Lexicon, value: string): Result<string, TicketError> {
    var raw := TrimSpace(value);
    if raw == "" || Utf8Len(raw) > REFERENCE_LIMIT + 2 then Err(ErrWithdrawalInvalid)
    else
      var ref := Upper(raw);
      if Utf8Len(ref) > REFERENCE_LIMIT || !RefPattern(ref) then Err(ErrWithdrawalInvalid)
      else if Sensitive(lex, ref) then Err(ErrSensitive)
      else if LooksLikeAccount(ref) then Err(ErrWithdrawalInvalid)
      else Ok(ref)
  }

  lemma RefTextFixed(ref: string)
    requires RefPattern(ref)
    ensures TrimSpace(ref) == ref && Upper(ref) == ref && Utf8Len(ref) == |ref|
  {
    assert IsRefChar(ref[0]) && IsRefChar(ref[|ref| - 1]);
    TrimSpaceTrims(ref);
    assert Upper(ref) == ref;
    Utf8LenAscii(ref);
  }

  /** A receipt is stored in one spelling: validating it again changes nothing, and it is never a card
      number nor an account. */
  lemma ReferenceCanonical(lex: Lexicon, value: string)
    requires ValidatePaymentReference(lex, value).Ok?
    ensures var ref := ValidatePaymentReference(lex, value).value;
            && ValidatePaymentReference(lex, ref) == Ok(ref)
            && RefPattern(ref) && |ref| <= REFERENCE_LIMIT
            && !CardNumber.HasCard(ref, lex.wideDigit) && !LooksLikeAccount(ref)
  {
    RefTextFixed(ValidatePaymentReference(lex, value).value);
  }

  /** A bank account number: eight digits or more and no letter, an IBAN, or a wallet address. */
  ghost predicate NamesAccount(ref: string) {
    || (|CardNumber.DigitsOf(ref)| >= 8 && forall i :: 0 <= i < |ref| ==> !('A' <= ref[i] <= 'Z'))
    || (15 <= |ref| <= 34 && (forall i :: 0 <= i < 2 ==> 'A' <= ref[i] <= 'Z')
        && (forall i :: 2 <= i < 4 ==> '0' <= ref[i] <= '9')
        && forall i :: 4 <= i < |ref| ==> 'A' <= ref[i] <= 'Z' || '0' <= ref[i] <= '9')
    || (|ref| >= 42 && ref[0] == '0' && ref[1] == 'X'
        && forall i :: 2 <= i < |ref| ==> '0' <= ref[i] <= '9' || 'A' <= ref[i] <= 'F')
    || (((28 <= |ref| <= 93 && ref[0] == 'B' && ref[1] == 'C' && ref[2] == '1')
         || (26 <= |ref| <= 91 && (ref[0] == '1' || ref[0] == '3')))
        && forall i :: 0 <= i < |ref| ==> 'A' <= ref[i] <= 'Z' || '0' <= ref[i] <= '9')
  }

  lemma {:induction false} OnlyDigitsLeft(s: string)
    ensures |CardNumber.DigitsOf(s)| <= |Unpunctuated(s)|
    ensures (forall i :: 0 <= i < |s| ==> !IsUpper(s[i]))
            <==> forall i :: 0 <= i < |Unpunctuated(s)| ==> IsDigit(Unpunctuated(s)[i])
    ensures (forall i :: 0 <= i < |s| ==> !IsUpper(s[i])) ==> Unpunctuated(s) == CardNumber.DigitsOf(s)
  {
    if s != [] {
      OnlyDigitsLeft(s[1..]);
      var rest := Unpunctuated(s[1..]);
      assert forall i :: 0 <= i < |s[1..]| ==> s[1..][i] == s[i + 1];
      if IsAlnum(s[0]) {
        assert Unpunctuated(s) == [s[0]] + rest && Unpunctuated(s)[0] == s[0];
        assert forall i :: 0 <= i < |rest| ==> Unpunctuated(s)[i + 1] == rest[i];
      }
    }
  }

  lemma AccountShapes(ref: string)
    ensures LooksLikeAccount(ref) <==> NamesAccount(ref)
  {
    OnlyDigitsLeft(ref);
    IbanShape(ref);
    WalletShapes(ref);
    hide IbanPattern, EthPattern, BtcPattern;
  }

  lemma IbanShape(ref: string)
    ensures IbanPattern(ref) <==>
              && 15 <= |ref| <= 34 && (forall i :: 0 <= i < 2 ==> 'A' <= ref[i] <= 'Z')
              && (forall i :: 2 <= i < 4 ==> '0' <= ref[i] <= '9')
              && forall i :: 4 <= i < |ref| ==> 'A' <= ref[i] <= 'Z' || '0' <= ref[i] <= '9'
  {
    if 15 <= |ref| <= 34 {
      assert AllAlnum(ref[4..]) <==> forall i :: 4 <= i < |ref| ==> IsAlnum(ref[i]) by {
        assert forall i :: 4 <= i < |ref| ==> ref[i] == ref[4..][i - 4];
      }
    }
  }

  lemma WalletShapes(ref: string)
    ensures EthPattern(ref) <==>
              && |ref| >= 42 && ref[0] == '0' && ref[1] == 'X'
              && forall i :: 2 <= i < |ref| ==> '0' <= ref[i] <= '9' || 'A' <= ref[i] <= 'F'
    ensures BtcPattern(ref) <==>
              && ((28 <= |ref| <= 93 && ref[0] == 'B' && ref[1] == 'C' && ref[2] == '1')
                  || (26 <= |ref| <= 91 && (ref[0] == '1' || ref[0] == '3')))
              && forall i :: 0 <= i < |ref| ==> 'A' <= ref[i] <= 'Z' || '0' <= ref[i] <= '9'
  {
    if |ref| >= 3 {
      assert ref[..3] == [ref[0], ref[1], ref[2]];
      assert AllAlnum(ref[3..]) <==> forall i :: 3 <= i < |ref| ==> IsAlnum(ref[i]) by {
        assert forall i :: 3 <= i < |ref| ==> ref[i] == ref[3..][i - 3];
      }
      assert AllAlnum(ref[1..]) <==> forall i :: 1 <= i < |ref| ==> IsAlnum(ref[i]) by {
        assert forall i :: 1 <= i < |ref| ==> ref[i] == ref[1..][i - 1];
      }
    }
  }

  /** A receipt is accepted exactly as its upper-case form without surrounding space, when that is at most 120
      characters, starts with a letter or digit, goes on with those or . _ / -, holds nothing sensitive and is
      neither an account number nor a wallet; the typed text may be two bytes longer. */
  lemma ReferenceExactly(lex: Lexicon, value: string)
    ensures var ref := Upper(TrimSpace(value));
            var shaped := && 1 <= |ref| <= 120 && Utf8Len(TrimSpace(value)) <= 122
                          && ref[0] !in {'.', '_', '/', '-'}
                          && forall i :: 0 <= i < |ref| ==>
                               || 'A' <= ref[i] <= 'Z' || '0' <= ref[i] <= '9' || ref[i] in {'.', '_', '/', '-'};
            ValidatePaymentReference(lex, value)
            == if !shaped then Err(ErrWithdrawalInvalid)
               else if CardNumber.HasCard(ref, lex.wideDigit) || lex.otherFinding(ref) then Err(ErrSensitive)
               else if NamesAccount(ref) then Err(ErrWithdrawalInvalid)
               else Ok(ref)
  {
    var ref := Upper(TrimSpace(value));
    AccountShapes(ref);
    if RefPattern(ref) {
      Utf8LenAscii(ref);
    }
    hide LooksLikeAccount, NamesAccount, TrimSpace;
  }

  lemma SpellingStable(value: string)
    ensures var ref := Upper(TrimSpace(value)); TrimSpace(ref) == ref && Upper(ref) == ref
    ensures TrimSpace(value) == "" <==> Upper(TrimSpace(value)) == ""
  {
    var raw := TrimSpace(value);
    TrimSpaceTrims(value);
    UpperKeepsEnds(raw);
    TrimSpaceTrims(Upper(raw));
    var ref := Upper(raw);
    assert Upper(ref) == ref by {
      assert forall i :: 0 <= i < |ref| ==> UpperChar(ref[i]) == ref[i];
    }
  }

  /** A spelling is accepted exactly when its canonical form is and the typed text, in bytes, is at most two
      over the limit; it then is the same receipt. So spellings that differ in case or surrounding space are
      one receipt, and can differ in acceptance only by that limit. */
  lemma SpellingsAgree(lex: Lexicon, value: string)
    ensures var ref := Upper(TrimSpace(value));
            ValidatePaymentReference(lex, value)
            == if Utf8Len(TrimSpace(value)) <= REFERENCE_LIMIT + 2 then ValidatePaymentReference(lex, ref)
               else Err(ErrWithdrawalInvalid)
  {
    SpellingStable(value);
    hide Upper, TrimSpace, Utf8Len, RefPattern, LooksLikeAccount, Sensitive;
  }

  // Withdrawal forms

  const FORM_KEYS: set<string> := {"region", "transactionId", "amount", "currency", "method"}

  /** The parts of a withdrawal fixed at creation. */
  datatype Request = Request(amountMinor: int, currency: string, saleReference: string, method_: string)

  predicate IsMethodChar(lex: Lexicon, c: char) {
    lex.letter(c) || c in {' ', '.', '&', '(', ')', '/', '-'}
  }

  /** ^[\p{L}][\p{L} .&()/-]*$ ; a text of such characters cannot contain "://". */
  predicate MethodPattern(lex: Lexicon, s: string) {
    s != [] && lex.letter(s[0]) && forall i :: 0 <= i < |s| ==> IsMethodChar(lex, s[i])
  }

  predicate HasScheme(s: string) {
    exists i :: 0 <= i && i + 2 < |s| && s[i] == ':' && s[i + 1] == '/' && s[i + 2] == '/'
  }

  function CleanForm(region: string, sale: string, a: Money.Amount, m: string): map<string, string> {
    map["region" := region, "transactionId" := sale, "amount" := a.display, "currency" := a.currency,
        "method" := m]
  }

  function ValidateWithdrawalInput(lex: Lexicon, data: map<string, string>)
    : Result<(map<string, string>, Request), TicketError>
  {
    if data.Keys != FORM_KEYS then Err(ErrInvalidForm)
    else ValidateFields(lex, data["region"], data["amount"], data["currency"], data["transactionId"], data["method"])
  }

  function ValidateFields(lex: Lexicon, regionText: string, amountText: string, currency: string,
                          saleText: string, methodText: string)
    : Result<(map<string, string>, Request), TicketError>
  {
    var region := Upper(TrimSpace(regionText));
    if !TicketId.ValidRegion(region) then Err(ErrInvalidRegion)
    else
      var amount := Money.ParseAmount(amountText, currency);
      if amount.None? then Err(ErrWithdrawalInvalid)
      else
        var sale := ValidatePaymentReference(lex, saleText);
        if sale.Err? then Err(sale.error)
        else
          var m := TrimSpace(methodText);
          if m == "" || Utf8Len(m) > METHOD_LIMIT || !MethodPattern(lex, m) || HasScheme(m)
          then Err(ErrWithdrawalInvalid)
          else if Sensitive(lex, m) then Err(ErrSensitive)
          else
            var a := amount.value;
            Ok((CleanForm(region, sale.value, a, m), Request(a.minor, a.currency, sale.value, m)))
  }

  lemma CleanFormLookup(region: string, sale: string, a: Money.Amount, m: string)
    ensures var c := CleanForm(region, sale, a, m);
            && c.Keys == FORM_KEYS && c["region"] == region && c["amount"] == a.display
            && c["currency"] == a.currency && c["transactionId"] == sale && c["method"] == m
  {
  }

  /** An accepted form asks for a positive int64 in a supported currency under a canonical sale
      reference, and resubmitting the cleaned form yields the same request and the same form. */
  lemma CleanFormStable(lex: Lexicon, data: map<string, string>)
    requires ValidateWithdrawalInput(lex, data).Ok?
    ensures var (clean, req) := ValidateWithdrawalInput(lex, data).value;
            && 1 <= req.amountMinor <= Money.MAX_INT64 && req.currency in Money.CURRENCIES
            && ValidatePaymentReference(lex, req.saleReference) == Ok(req.saleReference)
            && ValidateWithdrawalInput(lex, clean) == Ok((clean, req))
  {
    hide Sensitive, MethodPattern, HasScheme, RefPattern, LooksLikeAccount, TicketId.ValidRegion, Utf8Len;
    var region := Upper(TrimSpace(data["region"]));
    var a := Money.ParseAmount(data["amount"], data["currency"]).value;
    var sale := ValidatePaymentReference(lex, data["transactionId"]).value;
    var m := TrimSpace(data["method"]);
    Money.DisplayIsCanonical(data["amount"], data["currency"]);
    ReferenceCanonical(lex, data["transactionId"]);
    MethodStable(data["method"]);
    RegionStable(data["region"]);
    assert ValidateFields(lex, region, a.display, a.currency, sale, m)
        == Ok((CleanForm(region, sale, a, m), Request(a.minor, a.currency, sale, m)));
    CleanFormLookup(region, sale, a, m);
  }

  lemma MethodStable(text: string)
    ensures TrimSpace(TrimSpace(text)) == TrimSpace(text)
  {
    TrimSpaceTrims(text);
    TrimSpaceTrims(TrimSpace(text));
  }

  lemma RegionStable(region: string)
    requires TicketId.ValidRegion(Upper(TrimSpace(region)))
    ensures var r := Upper(TrimSpace(region)); Upper(TrimSpace(r)) == r
  {
    var t := TrimSpace(region);
    var r := Upper(t);
    TrimSpaceTrims(region);
    TrimSpaceTrims(r);
    UpperKeepsEnds(t);
    assert Upper(r) == r by {
      assert forall i :: 0 <= i < |r| ==> UpperChar(r[i]) == r[i];
    }
  }

  lemma UpperKeepsEnds(t: string)
    requires Trimmed(t)
    ensures Trimmed(Upper(t))
  {
  }
}
