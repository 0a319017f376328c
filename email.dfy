/**
 * The `Email` bean (model/Email.java): a mutable record the scanner fills in
 * field by field, with equality and hashing by id and a size formatter.
 * `EmailRec` is the value of all its fields at one moment; the categorizer and
 * the analyses read records through that value.
 */
module EmailModel {
  import opened Wrappers
  import opened Text

  /** A `LocalDateTime`, counted in milliseconds of local time. */
  type Timestamp = int

  const KiB: int := 1024
  const MiB: int := 1024 * 1024
  const GiB: int := 1024 * 1024 * 1024

  /** The fields of an `Email`, as one value. `None` is Java's `null`. */
  datatype EmailRec = EmailRec(
    id: Option<string>,
    messageId: Option<string>,
    from: Option<string>,
    fromName: Option<string>,
    subject: Option<string>,
    snippet: Option<string>,
    date: Option<Timestamp>,
    sizeBytes: int,
    category: Option<string>,
    hasUnsubscribeLink: bool,
    unsubscribeUrl: Option<string>,
    isRead: bool,
    labelIds: Option<string>)

  /** A default-constructed `Email`: null references, `false` flags, zero size. */
  const BlankEmail: EmailRec :=
    EmailRec(None, None, None, None, None, None, None, 0, None, false, None, false, None)

  /**
   * What a size formatter prints. The bytes tier prints an exact integer; the other
   * tiers print `amount` with two decimals followed by `unit`, and only the amount
   * and the unit are modelled here, not the `%.2f` rendering.
   */
  datatype SizeText = Exact(text: string) | Scaled(amount: real, unit: string)

  /** Java's `(int)` narrowing of an integer: keep the low 32 bits, two's complement. */
  function Wrap32(x: int): (r: int)
    ensures -0x8000_0000 <= r < 0x8000_0000
    ensures (r - x) % 0x1_0000_0000 == 0
  {
    var m := x % 0x1_0000_0000;
    if m >= 0x8000_0000 then m - 0x1_0000_0000 else m
  }

  /** `String.hashCode()`: `h = 31 * h + c` over the characters, in 32-bit arithmetic. */
  function StringHash(s: string): (r: int)
    ensures -0x8000_0000 <= r < 0x8000_0000
  {
    if s == [] then 0 else Wrap32(31 * StringHash(s[..|s| - 1]) + s[|s| - 1] as int)
  }

  /** `Objects.hash(id)`: `31 * 1 + (id == null ? 0 : id.hashCode())`, in 32-bit arithmetic. */
  function IdHash(id: Option<string>): (r: int)
    ensures -0x8000_0000 <= r < 0x8000_0000
    ensures id.None? ==> r == 31
  {
    Wrap32(31 + (if id.Some? then StringHash(id.value) else 0))
  }

  class Email {
    var id: Option<string>
    var messageId: Option<string>
    var from: Option<string>
    var fromName: Option<string>
    var subject: Option<string>
    var snippet: Option<string>
    var date: Option<Timestamp>
    var sizeBytes: int
    var category: Option<string>
    var hasUnsubscribeLink: bool
    var unsubscribeUrl: Option<string>
    var isRead: bool
    var labelIds: Option<string>

    /** The current value of every field. */
    function Snapshot(): EmailRec
      reads this
    {
      EmailRec(id, messageId, from, fromName, subject, snippet, date, sizeBytes,
               category, hasUnsubscribeLink, unsubscribeUrl, isRead, labelIds)
    }

    /** `new Email()`. */
    constructor ()
      ensures Snapshot() == BlankEmail
    {
      id, messageId, from, fromName := None, None, None, None;
      subject, snippet, date, sizeBytes := None, None, None, 0;
      category, hasUnsubscribeLink, unsubscribeUrl := None, false, None;
      isRead, labelIds := false, None;
    }

    /** The eight-argument constructor: the rest keeps its default. */
    constructor Of(id: Option<string>, messageId: Option<string>, from: Option<string>,
                   fromName: Option<string>, subject: Option<string>, snippet: Option<string>,
                   date: Option<Timestamp>, sizeBytes: int)
      ensures Snapshot() == BlankEmail.(id := id, messageId := messageId, from := from,
        fromName := fromName, subject := subject, snippet := snippet, date := date,
        sizeBytes := sizeBytes)
    {
      this.id, this.messageId, this.from, this.fromName := id, messageId, from, fromName;
      this.subject, this.snippet, this.date, this.sizeBytes := subject, snippet, date, sizeBytes;
      category, hasUnsubscribeLink, unsubscribeUrl := None, false, None;
      isRead, labelIds := false, None;
    }

    // Each setter writes its own field and leaves the rest of the email as it was.

    method SetId(v: Option<string>)
      modifies this`id
      ensures Snapshot() == old(Snapshot()).(id := v)
    {
      id := v;
    }

    method SetMessageId(v: Option<string>)
      modifies this`messageId
      ensures Snapshot() == old(Snapshot()).(messageId := v)
    {
      messageId := v;
    }

    method SetFrom(v: Option<string>)
      modifies this`from
      ensures Snapshot() == old(Snapshot()).(from := v)
    {
      from := v;
    }

    method SetFromName(v: Option<string>)
      modifies this`fromName
      ensures Snapshot() == old(Snapshot()).(fromName := v)
    {
      fromName := v;
    }

    method SetSubject(v: Option<string>)
      modifies this`subject
      ensures Snapshot() == old(Snapshot()).(subject := v)
    {
      subject := v;
    }

    method SetSnippet(v: Option<string>)
      modifies this`snippet
      ensures Snapshot() == old(Snapshot()).(snippet := v)
    {
      snippet := v;
    }

    method SetDate(v: Option<Timestamp>)
      modifies this`date
      ensures Snapshot() == old(Snapshot()).(date := v)
    {
      date := v;
    }

    method SetSizeBytes(v: int)
      modifies this`sizeBytes
      ensures Snapshot() == old(Snapshot()).(sizeBytes := v)
    {
      sizeBytes := v;
    }

    method SetCategory(v: Option<string>)
      modifies this`category
      ensures Snapshot() == old(Snapshot()).(category := v)
    {
      category := v;
    }

    method SetHasUnsubscribeLink(v: bool)
      modifies this`hasUnsubscribeLink
      ensures Snapshot() == old(Snapshot()).(hasUnsubscribeLink := v)
    {
      hasUnsubscribeLink := v;
    }

    method SetUnsubscribeUrl(v: Option<string>)
      modifies this`unsubscribeUrl
      ensures Snapshot() == old(Snapshot()).(unsubscribeUrl := v)
    {
      unsubscribeUrl := v;
    }

    method SetRead(v: bool)
      modifies this`isRead
      ensures Snapshot() == old(Snapshot()).(isRead := v)
    {
      isRead := v;
    }

    method SetLabelIds(v: Option<string>)
      modifies this`labelIds
      ensures Snapshot() == old(Snapshot()).(labelIds := v)
    {
      labelIds := v;
    }

    /** `equals(Object)`: the same object, or another `Email` with an equal (possibly null) id. */
    predicate Equals(o: Email?)
      reads this, o
    {
      o != null && (this == o || id == o.id)
    }

    /** `hashCode()`: depends on the id alone. */
    function HashCode(): (r: int)
      reads this
      ensures -0x8000_0000 <= r < 0x8000_0000
      ensures id.None? ==> r == 31
    {
      IdHash(id)
    }

    /** `getSizeFormatted()`: bytes below 1 KiB, kilobytes below 1 MiB, megabytes above. */
    function SizeFormatted(): (r: SizeText)
      reads this
      ensures r.Exact? <==> sizeBytes < KiB
      ensures r.Exact? ==> r.text == IntToString(sizeBytes) + " B"
      ensures r.Scaled? ==> (r.unit == " KB" <==> sizeBytes < MiB) && (r.unit == " MB" <==> MiB <= sizeBytes)
      ensures r.Scaled? ==> 1.0 <= r.amount && (r.unit == " KB" ==> r.amount < 1024.0)
      ensures r.Scaled? ==> r.amount * (if r.unit == " KB" then KiB else MiB) as real == sizeBytes as real
    {
      if sizeBytes < KiB then Exact(IntToString(sizeBytes) + " B")
      else if sizeBytes < MiB then Scaled(sizeBytes as real / 1024.0, " KB")
      else Scaled(sizeBytes as real / (1024.0 * 1024.0), " MB")
    }
  }

  /**
   * `equals` says exactly "same id" between two emails, and it is an equivalence:
   * reflexive, symmetric and transitive.
   */
  lemma EqualsIsSameId(a: Email, b: Email, c: Email)
    ensures a.Equals(b) <==> a.id == b.id
    ensures a.Equals(a)
    ensures a.Equals(b) ==> b.Equals(a)
    ensures a.Equals(b) && b.Equals(c) ==> a.Equals(c)
  {
  }

  /** The `equals`/`hashCode` contract: equal emails hash equally. */
  lemma EqualEmailsHashEqually(a: Email, b: Email)
    requires a.Equals(b)
    ensures a.HashCode() == b.HashCode()
  {
  }

  /** The bytes tier prints the size exactly: reading the number back gives the size. */
  lemma {:induction false} ByteTierReadsBack(e: Email)
    requires e.sizeBytes < KiB
    ensures var t := e.SizeFormatted().text;
      |t| >= 3 && t[|t| - 2..] == " B" &&
      var digits := t[..|t| - 2];
      digits != [] && (digits[0] == '-' ==> |digits| > 1) &&
      (forall i :: 0 <= i < |digits| ==> IsDigit(digits[i]) || (i == 0 && digits[i] == '-')) &&
      ParseInt(digits) == e.sizeBytes
  {
    var n := IntToString(e.sizeBytes);
    IntToStringRoundTrip(e.sizeBytes);
    var t := e.SizeFormatted().text;
    assert t == n + " B";
    assert t[..|t| - 2] == n;
  }
}
