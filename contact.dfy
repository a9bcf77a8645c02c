/** The contact form of both sites: the three fields become a WhatsApp message to the shop. */
module Contact {
  import opened Basics
  import StaticProducts

  const Heading := "*New Inquiry from Website* %0a%0a"

  /** The message, with "%0a" standing for line breaks; the fields are put in as typed, without
      any encoding. */
  function InquiryText(name: string, phone: string, message: string): string {
    Heading + "*Name:* " + name + " %0a" + "*Phone:* " + phone + " %0a" + "*Message:* " + message
  }

  /** The link the form opens, or `None` when a field is empty ("Please fill in all fields."). */
  function ContactUrl(name: string, phone: string, message: string, shopPhone: string): (r: Option<string>)
    ensures r.Some? <==> name != "" && phone != "" && message != ""
    ensures r.Some? ==> r.value == WaMeLink(shopPhone, InquiryText(name, phone, message))
  {
    if name == "" || phone == "" || message == "" then None
    else Some(WaMeLink(shopPhone, InquiryText(name, phone, message)))
  }

  /** The static site writes to `shopSettings.phone`, or to the shop's number when it is empty. */
  function StaticContactUrl(name: string, phone: string, message: string, settingsPhone: Option<string>): Option<string> {
    ContactUrl(name, phone, message, StaticProducts.InquiryPhone(settingsPhone))
  }

  /** The dynamic site always writes to the shop's number. */
  function DynamicContactUrl(name: string, phone: string, message: string): Option<string> {
    ContactUrl(name, phone, message, "919002066361")
  }

  /** The two sites open the same link unless the static settings name another number. */
  lemma SitesAgree(name: string, phone: string, message: string, settingsPhone: Option<string>)
    requires OptOrElse(settingsPhone, "") in {"", "919002066361"}
    ensures StaticContactUrl(name, phone, message, settingsPhone) == DynamicContactUrl(name, phone, message)
  {
  }

  /** With the name and phone fixed, the message can be read back from the text. */
  lemma MessageReadBack(name: string, phone: string, m1: string, m2: string)
    requires InquiryText(name, phone, m1) == InquiryText(name, phone, m2)
    ensures m1 == m2
  {
    var n := |Heading + "*Name:* " + name + " %0a" + "*Phone:* " + phone + " %0a" + "*Message:* "|;
    assert m1 == InquiryText(name, phone, m1)[n..];
    assert m2 == InquiryText(name, phone, m2)[n..];
  }

  const PhoneLabel := " %0a*Phone:* "
  const MessageLabel := " %0a*Message:* "

  /** The message as one right-nested concatenation of the fields and their labels. */
  lemma InquiryTextShape(name: string, phone: string, message: string)
    ensures InquiryText(name, phone, message)
            == (Heading + "*Name:* ") + (name + (PhoneLabel + (phone + (MessageLabel + message))))
  {
    var x := Heading + "*Name:* ";
    assert " %0a" + "*Phone:* " == PhoneLabel;
    assert " %0a" + "*Message:* " == MessageLabel;
    AppendAssoc(x + name, " %0a", "*Phone:* ");
    AppendAssoc(x + name + PhoneLabel + phone, " %0a", "*Message:* ");
    AppendAssoc(x + name + PhoneLabel, phone, MessageLabel + message);
    AppendAssoc(x + name, PhoneLabel, phone + (MessageLabel + message));
    AppendAssoc(x, name, PhoneLabel + (phone + (MessageLabel + message)));
  }

  /** Because the fields are not encoded, a name that contains the phone line's label makes a
      different submission send the same message. */
  lemma FieldsAmbiguous(a: string, b: string, c: string, m: string)
    ensures InquiryText(a + PhoneLabel + b, c, m) == InquiryText(a, b + PhoneLabel + c, m)
  {
    var rest := PhoneLabel + (c + (MessageLabel + m));
    InquiryTextShape(a + PhoneLabel + b, c, m);
    InquiryTextShape(a, b + PhoneLabel + c, m);
    AppendAssoc(a + PhoneLabel, b, rest);
    AppendAssoc(a, PhoneLabel, b + rest);
    AppendAssoc(b + PhoneLabel, c, MessageLabel + m);
    AppendAssoc(b, PhoneLabel, c + (MessageLabel + m));
  }
}
