/**
 * The stores page: each store card links its phone number as a `tel:` URI made
 * of the phone's digits, and shows the store image or a placeholder.
 */
module LojasPage {
  import opened Common

  /** A store card's record. */
  datatype Store = Store(id: nat, name: string, address: string, phone: string, hours: string, mapUrl: string, image: string)

  const BomJardimPhone := "(85) 9 9996.0267"
  const BonsucessoPhone := "(85) 9 9660.2873"

  const Stores: seq<Store> := [
    Store(1, "Loja Bom Jardim", "R. Maria Júlia, 980 - Bom Jardim, Fortaleza - CE, 60540-250",
          BomJardimPhone, "Seg - Sáb: 7h às 21h | Dom: 7h às 13h",
          "https://maps.google.com/?q=R.+Maria+Júlia,+980+-+Bom+Jardim,+Fortaleza+-+CE",
          "/images/banner-sorteio.jpg"),
    Store(2, "Loja Bonsucesso", "R. Verbena, 630 - Bonsucesso, Fortaleza - CE, 60545-350",
          BonsucessoPhone, "Seg - Sáb: 7h às 21h | Dom: 7h às 13h",
          "https://maps.google.com/?q=R.+Verbena,+630+-+Bonsucesso,+Fortaleza+-+CE",
          "/images/banner-app.jpg")
  ]

  /** `phone.replace(/\D/g, '')`: every character that is not an ASCII digit removed. */
  function StripNonDigits(s: string): (r: string)
    ensures |r| <= |s|
  {
    if s == [] then []
    else if IsAsciiDigit(s[0]) then [s[0]] + StripNonDigits(s[1..])
    else StripNonDigits(s[1..])
  }

  /** The phone link: "tel:" and the phone's digits. */
  function TelHref(phone: string): (href: string)
    ensures |href| >= 4 && href[..4] == "tel:"
    ensures AllDigits(href[4..])
  {
    StripGivesDigits(phone);
    "tel:" + StripNonDigits(phone)
  }

  /** Only digits survive the strip. */
  lemma {:induction false} StripGivesDigits(s: string)
    ensures AllDigits(StripNonDigits(s))
  {
    if s != [] {
      StripGivesDigits(s[1..]);
    }
  }

  /** Stripping distributes over concatenation: the digits keep their order. */
  lemma {:induction false} StripConcat(a: string, b: string)
    ensures StripNonDigits(a + b) == StripNonDigits(a) + StripNonDigits(b)
  {
    if a == [] {
      assert a + b == b;
    } else {
      assert (a + b)[0] == a[0];
      assert (a + b)[1..] == a[1..] + b;
      StripConcat(a[1..], b);
    }
  }

  /** Each digit occurs as often after stripping as before; other characters not at all. */
  lemma {:induction false} StripCounts(s: string, c: char)
    ensures multiset(StripNonDigits(s))[c] == if IsAsciiDigit(c) then multiset(s)[c] else 0
  {
    if s != [] {
      StripCounts(s[1..], c);
      assert s == [s[0]] + s[1..];
      assert multiset(s) == multiset{s[0]} + multiset(s[1..]);
    }
  }

  /** The strip leaves a string unchanged exactly when it is all digits. */
  lemma {:induction false} StripIdentityIffDigits(s: string)
    ensures StripNonDigits(s) == s <==> AllDigits(s)
  {
    if s != [] {
      StripIdentityIffDigits(s[1..]);
      if !IsAsciiDigit(s[0]) {
        assert |StripNonDigits(s)| < |s| by {
          assert StripNonDigits(s) == StripNonDigits(s[1..]);
        }
      }
    }
  }

  /** Stripping twice is stripping once. */
  lemma StripIdempotent(s: string)
    ensures StripNonDigits(StripNonDigits(s)) == StripNonDigits(s)
  {
    StripGivesDigits(s);
    StripIdentityIffDigits(StripNonDigits(s));
  }

  /** Appending digits appends them to the stripped string. */
  lemma StripAppendDigits(a: string, d: string)
    requires AllDigits(d)
    ensures StripNonDigits(a + d) == StripNonDigits(a) + d
  {
    StripConcat(a, d);
    StripIdentityIffDigits(d);
  }

  /** A string without digits strips to nothing. */
  lemma {:induction false} StripNoDigits(t: string)
    requires forall i :: 0 <= i < |t| ==> !IsAsciiDigit(t[i])
    ensures StripNonDigits(t) == []
  {
    if t != [] {
      StripNoDigits(t[1..]);
    }
  }

  /** Appending characters that are not digits adds nothing. */
  lemma StripAppendNoDigits(a: string, t: string)
    requires forall i :: 0 <= i < |t| ==> !IsAsciiDigit(t[i])
    ensures StripNonDigits(a + t) == StripNonDigits(a)
  {
    StripConcat(a, t);
    StripNoDigits(t);
  }

  /** Text without digits followed by digits: only those digits are added. */
  lemma StripSeparatorDigits(x: string, sep: string, d: string)
    requires forall i :: 0 <= i < |sep| ==> !IsAsciiDigit(sep[i])
    requires AllDigits(d)
    ensures StripNonDigits(x + sep + d) == StripNonDigits(x) + d
  {
    StripAppendNoDigits(x, sep);
    StripAppendDigits(x + sep, d);
  }

  /** The "(AA) B" head of a phone strips to AAB. */
  lemma StripPhoneHead(area: string, first: string)
    requires AllDigits(area) && AllDigits(first)
    ensures StripNonDigits("(" + area + ") " + first) == area + first
  {
    StripSeparatorDigits([], "(", area);
    assert [] + "(" + area == "(" + area;
    StripSeparatorDigits("(" + area, ") ", first);
  }

  /** The " CCCC.DDDD" tail of a phone adds CCCCDDDD. */
  lemma StripPhoneTail(head: string, mid: string, last: string)
    requires AllDigits(mid) && AllDigits(last)
    ensures StripNonDigits(head + " " + mid + "." + last) == StripNonDigits(head) + mid + last
  {
    StripSeparatorDigits(head, " ", mid);
    StripSeparatorDigits(head + " " + mid, ".", last);
  }

  /** A phone written "(AA) B CCCC.DDDD" dials AABCCCCDDDD. */
  lemma StripPhonePattern(area: string, first: string, mid: string, last: string)
    requires AllDigits(area) && AllDigits(first) && AllDigits(mid) && AllDigits(last)
    ensures StripNonDigits("(" + area + ") " + first + " " + mid + "." + last) == area + first + mid + last
  {
    StripPhoneHead(area, first);
    StripPhoneTail("(" + area + ") " + first, mid, last);
  }

  /** The two store cards call "tel:85999960267" and "tel:85996602873". */
  lemma StoreTelHrefs()
    ensures TelHref(Stores[0].phone) == "tel:85999960267"
    ensures TelHref(Stores[1].phone) == "tel:85996602873"
  {
    BomJardimTel();
    BonsucessoTel();
  }

  /** The link of a phone written "(AA) B CCCC.DDDD" is "tel:AABCCCCDDDD". */
  lemma TelHrefOfPattern(phone: string, area: string, first: string, mid: string, last: string, href: string)
    requires AllDigits(area) && AllDigits(first) && AllDigits(mid) && AllDigits(last)
    requires phone == "(" + area + ") " + first + " " + mid + "." + last
    requires href == "tel:" + area + first + mid + last
    ensures TelHref(phone) == href
  {
    StripPhonePattern(area, first, mid, last);
  }

  lemma BomJardimTel()
    ensures TelHref(BomJardimPhone) == "tel:85999960267"
  {
    TelHrefOfPattern(BomJardimPhone, "85", "9", "9996", "0267", "tel:85999960267");
  }

  lemma BonsucessoTel()
    ensures TelHref(BonsucessoPhone) == "tel:85996602873"
  {
    TelHrefOfPattern(BonsucessoPhone, "85", "9", "9660", "2873", "tel:85996602873");
  }

  /** Both store images are present, so no card shows the placeholder. */
  lemma StoreImagesShown()
    ensures forall i :: 0 <= i < |Stores| ==> ImageSrc(Stores[i].image) == Stores[i].image
  {
  }
}
