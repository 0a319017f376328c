/**
 * The `SenderStats` bean (model/SenderStats.java): one row of the per-sender
 * rollup, with a display-name fallback and a four-tier size formatter.
 */
module SenderStatsModel {
  import opened Wrappers
  import opened Text
  import opened EmailModel

  class SenderStats {
    var senderEmail: Option<string>
    var senderName: Option<string>
    var emailCount: int
    var totalSizeBytes: int
    var category: Option<string>

    /** `new SenderStats()`. */
    constructor ()
      ensures senderEmail == None && senderName == None && category == None
      ensures emailCount == 0 && totalSizeBytes == 0
    {
      senderEmail, senderName, category := None, None, None;
      emailCount, totalSizeBytes := 0, 0;
    }

    /** The four-argument constructor: the category stays null. */
    constructor Of(senderEmail: Option<string>, senderName: Option<string>, emailCount: int,
                   totalSizeBytes: int)
      ensures this.senderEmail == senderEmail && this.senderName == senderName
      ensures this.emailCount == emailCount && this.totalSizeBytes == totalSizeBytes
      ensures category == None
    {
      this.senderEmail, this.senderName := senderEmail, senderName;
      this.emailCount, this.totalSizeBytes := emailCount, totalSizeBytes;
      category := None;
    }

    // Each setter writes its own field and, by its frame, no other.

    method SetSenderEmail(v: Option<string>)
      modifies this`senderEmail
      ensures senderEmail == v
    {
      senderEmail := v;
    }

    method SetSenderName(v: Option<string>)
      modifies this`senderName
      ensures senderName == v
    {
      senderName := v;
    }

    method SetEmailCount(v: int)
      modifies this`emailCount
      ensures emailCount == v
    {
      emailCount := v;
    }

    method SetTotalSizeBytes(v: int)
      modifies this`totalSizeBytes
      ensures totalSizeBytes == v
    {
      totalSizeBytes := v;
    }

    method SetCategory(v: Option<string>)
      modifies this`category
      ensures category == v
    {
      category := v;
    }

    /**
     * `getDisplayName()`: the name when there is a non-empty one, else the address;
     * so a sender with a non-empty address always has a non-empty display name.
     */
    function DisplayName(): (r: Option<string>)
      reads this
      ensures r == senderName || r == senderEmail
      ensures r != senderName ==> senderName.None? || senderName.value == ""
      ensures r == senderName && r != senderEmail ==> r.Some? && r.value != ""
      ensures senderEmail.Some? && senderEmail.value != "" ==> r.Some? && r.value != ""
    {
      if senderName.Some? && senderName.value != "" then senderName else senderEmail
    }

    /** `getSizeFormatted()`: B, KB, MB, then GB, each tier 1024 times the one before. */
    function SizeFormatted(): (r: SizeText)
      reads this
      ensures r.Exact? <==> totalSizeBytes < KiB
      ensures r.Exact? ==> r.text == IntToString(totalSizeBytes) + " B"
      ensures r.Scaled? ==>
        (r.unit == " KB" <==> totalSizeBytes < MiB) &&
        (r.unit == " MB" <==> MiB <= totalSizeBytes < GiB) &&
        (r.unit == " GB" <==> GiB <= totalSizeBytes)
      ensures r.Scaled? ==> 1.0 <= r.amount && (r.unit != " GB" ==> r.amount < 1024.0)
      ensures r.Scaled? ==>
        r.amount * (if r.unit == " KB" then KiB else if r.unit == " MB" then MiB else GiB) as real
          == totalSizeBytes as real
    {
      if totalSizeBytes < KiB then Exact(IntToString(totalSizeBytes) + " B")
      else if totalSizeBytes < MiB then Scaled(totalSizeBytes as real / 1024.0, " KB")
      else if totalSizeBytes < GiB then Scaled(totalSizeBytes as real / (1024.0 * 1024.0), " MB")
      else Scaled(totalSizeBytes as real / (1024.0 * 1024.0 * 1024.0), " GB")
    }
  }
}
