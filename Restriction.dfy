/**
 * `detectTransferRestriction`: asks an ERC-1404 token contract whether a transfer would be
 * restricted and turns its answer into a list of reasons.
 */
module Restriction {
  import opened Wrappers
  import opened Strings
  import opened Types

  /** The message thrown when the client was built without a web3 instance. */
  const NoProviderMessage: string :=
    "Programmer: No Ethereum client provided, so can't access Ethereum. Fix this by " +
    "providing an Ethereum provider (e.g., web3 instance) on instantiation."

  /** A reason a transfer would fail. */
  datatype Obstruction = Obstruction(code: string, text: string)

  /** The description of a non-zero restriction code and the contract's message for it. */
  function RestrictionText(code: nat, message: string): (s: string)
    ensures |s| > 15 + |DecimalString(code)| + |message|
    ensures s[..15] == "Got error code " && s[15..15 + |DecimalString(code)|] == DecimalString(code)
    ensures s[|s| - 6..] == "method"
  {
    "Got error code " + DecimalString(code) + " ('" + message + "') from on-chain detectTransferRestriction " +
    "method"
  }

  /**
   * Without a provider, throws before any contract call. Otherwise reads the restriction code
   * for (from, to, quantity) from the token at the transaction's address: 0 means no
   * restriction; any other code is looked up with `messageForTransferRestriction` and reported
   * as one obstruction whose `code` field holds the message text.
   *
   * `detect` and `messageFor` stand for the two read-only contract calls.
   */
  function DetectTransferRestriction(
    web3: Option<Provider>,
    tx: Transaction,
    detect: (Provider, string, string, string, nat) -> nat,
    messageFor: (Provider, string, nat) -> string
  ): (r: Result<seq<Obstruction>, string>)
    ensures web3.None? ==> r == Failure(NoProviderMessage)
    ensures web3.Some? ==> r.Success? && |r.value| <= 1
    ensures web3.Some? ==>
      var code := detect(web3.value, tx.tokenAddress, tx.fromWallet, tx.toWallet, tx.qtyBaseUnits);
      (r.value == [] <==> code == 0) &&
      (code != 0 ==> r.value[0].code == messageFor(web3.value, tx.tokenAddress, code))
    ensures web3.Some? ==>
      var code := detect(web3.value, tx.tokenAddress, tx.fromWallet, tx.toWallet, tx.qtyBaseUnits);
      var message := messageFor(web3.value, tx.tokenAddress, code);
      code != 0 ==>
        r.value[0].text == RestrictionText(code, message) &&
        IsInfix(DecimalString(code), r.value[0].text) && IsInfix(message, r.value[0].text)
  {
    match web3
    case None => Failure(NoProviderMessage)
    case Some(provider) =>
      var code := detect(provider, tx.tokenAddress, tx.fromWallet, tx.toWallet, tx.qtyBaseUnits);
      if code == 0 then Success([])
      else
        var text := messageFor(provider, tx.tokenAddress, code);
        RestrictionTextMentions(code, text);
        Success([Obstruction(text, RestrictionText(code, text))])
  }

  /** The description names both the code, in decimal, and the contract's message. */
  lemma RestrictionTextMentions(code: nat, message: string)
    ensures IsInfix(DecimalString(code), RestrictionText(code, message))
    ensures IsInfix(message, RestrictionText(code, message))
  {
    var digits := DecimalString(code);
    var after := " ('" + message + "') from on-chain detectTransferRestriction " + "method";
    assert RestrictionText(code, message) == "Got error code " + digits + after;
    InfixOfConcat("Got error code ", digits, after);
    var before := "Got error code " + digits + " ('";
    var tail := "') from on-chain detectTransferRestriction " + "method";
    assert RestrictionText(code, message) == before + message + tail;
    InfixOfConcat(before, message, tail);
  }

  /** The code can be read back from the description at a fixed position. */
  lemma RestrictionTextCode(code: nat, message: string)
    ensures var digits := DecimalString(code);
      var text := RestrictionText(code, message);
      |text| >= 15 + |digits| && ParseDecimal(text[15..15 + |digits|]) == Some(code as int)
  {
    var digits := DecimalString(code);
    var text := RestrictionText(code, message);
    assert |"Got error code "| == 15;
    assert text == "Got error code " + digits + (" ('" + message + "') from on-chain detectTransferRestriction " + "method");
    assert text[15..15 + |digits|] == digits;
    DecimalRoundTrip(code);
  }

  /** The three outcomes, with a code of 1 and the message "Whitelist issue" for the last. */
  lemma RestrictionScenarios(tx: Transaction, p: Provider)
    ensures DetectTransferRestriction(None, tx, (_, _, _, _, _) => 1, (_, _, _) => "Whitelist issue")
      == Failure(NoProviderMessage)
    ensures DetectTransferRestriction(Some(p), tx, (_, _, _, _, _) => 0, (_, _, _) => "Whitelist issue")
      == Success([])
    ensures DetectTransferRestriction(Some(p), tx, (_, _, _, _, _) => 1, (_, _, _) => "Whitelist issue")
      == Success([Obstruction("Whitelist issue", RestrictionText(1, "Whitelist issue"))])
  {
  }

  /** For code 1, the description contains "1" and the message. */
  lemma CodeOneText(message: string)
    ensures IsInfix("1", RestrictionText(1, message)) && IsInfix(message, RestrictionText(1, message))
  {
    RestrictionTextMentions(1, message);
    DecimalOne();
  }
}
