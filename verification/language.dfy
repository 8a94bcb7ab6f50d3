/**
 * The site language: the current language, the `t` lookup into the
 * translation tables with its fall-back to the key, the text direction, and
 * the `lang`/`dir` attributes written to the document.
 */
module Language {
  import opened Wrappers
  import opened Types
  import Strings

  /** The language the site opens in. */
  const InitialLanguage := Ar

  /** The code of a language as the site names it. */
  function Code(lang: Language): string {
    match lang
    case En => "en"
    case Ar => "ar"
    case Eg => "eg"
  }

  /** `dir`: right-to-left for both Arabic variants. */
  function Dir(lang: Language): (r: string)
    ensures r == "rtl" <==> lang in {Ar, Eg}
    ensures r == "ltr" <==> lang == En
  {
    if lang.IsArabic() then "rtl" else "ltr"
  }

  // ---------------------------------------------------------------------------
  // Translation
  // ---------------------------------------------------------------------------

  function Table(lang: Language): seq<(string, string)> {
    match lang
    case En => EnEntries
    case Ar => ArEntries
    case Eg => EgEntries
  }

  /** `t(key)`: the current language's entry when it exists and is not
      empty, otherwise the key itself. */
  function Translate(lang: Language, key: string): (r: string)
    ensures var e := Strings.Lookup(Table(lang), key);
            && (e.Some? && e.value != "" ==> r == e.value)
            && (e.None? || e.value == "" ==> r == key)
  {
    match Strings.Lookup(Table(lang), key)
    case Some(v) => if v != "" then v else key
    case None => key
  }

  /** The members every JavaScript object inherits from `Object.prototype`:
      looking one of these up in a translation object finds the inherited
      member, not `undefined`. */
  const ObjectPrototypeNames: set<string> := {
    "constructor", "hasOwnProperty", "isPrototypeOf", "propertyIsEnumerable",
    "toLocaleString", "toString", "valueOf", "__proto__", "__defineGetter__",
    "__defineSetter__", "__lookupGetter__", "__lookupSetter__"}

  /** A key the tables do not know, and that no object inherits, is shown as
      itself, in every language. */
  lemma UnknownKeyShowsItself(lang: Language, key: string)
    requires forall k :: 0 <= k < |Table(lang)| ==> Table(lang)[k].0 != key
    requires key !in ObjectPrototypeNames
    ensures Translate(lang, key) == key
  {
  }

  /** `settings`, which the navigation bar asks for, is not in the tables,
      so the bar shows the word `settings` in every language. */
  lemma SettingsIsUntranslated(lang: Language)
    ensures Translate(lang, "settings") == "settings"
  {
    SettingsNotAKey();
    assert forall k :: 0 <= k < |Table(lang)| ==> Table(lang)[k].0 == Keys[k];
  }

  /** `settings` is none of the keys. */
  lemma SettingsNotAKey()
    ensures "settings" !in Keys
  {
    SettingsNotInA();
    SettingsNotInB();
    SettingsNotInC();
    SettingsNotInD();
  }

  lemma SettingsNotInA() ensures "settings" !in KeysA {}
  lemma SettingsNotInB() ensures "settings" !in KeysB {}
  lemma SettingsNotInC() ensures "settings" !in KeysC {}
  lemma SettingsNotInD() ensures "settings" !in KeysD {}

  // ---------------------------------------------------------------------------
  // The document attributes
  // ---------------------------------------------------------------------------

  /** The `lang` and `dir` attributes of the page's root element. */
  datatype Document = Document(lang: string, dir: string)

  /** The provider's state and the document it writes to. */
  datatype LanguageState = LanguageState(language: Language, doc: Document)

  /** `setLanguage`: stores the language and writes `en` or `ar` and the
      direction to the document. */
  function SetLanguage(s: LanguageState, lang: Language): (r: LanguageState)
    ensures r.language == lang
    ensures r.doc.lang == (if lang == En then "en" else "ar")
    ensures r.doc.dir == Dir(lang)
  {
    LanguageState(lang, Document(if lang == En then "en" else "ar", Dir(lang)))
  }

  /** The provider's render as written: the document's `lang` is set to the
      language's own code, `eg` included. */
  function RenderAsWritten(s: LanguageState): (r: LanguageState)
    ensures r.language == s.language && r.doc == Document(Code(s.language), Dir(s.language))
  {
    s.(doc := Document(Code(s.language), Dir(s.language)))
  }

  /** After choosing Egyptian Arabic, the re-render overwrites the `ar` that
      `setLanguage` wrote with `eg`, which is not a language tag. */
  lemma EgyptianLangOverwritten(s: LanguageState)
    ensures SetLanguage(s, Eg).doc.lang == "ar"
    ensures RenderAsWritten(SetLanguage(s, Eg)).doc.lang == "eg"
  {
  }

  /** The `lang` attribute a language calls for: `en`, or `ar` for both
      Arabic variants. */
  function LangAttribute(lang: Language): (r: string)
    ensures r == "en" <==> lang == En
    ensures r == "ar" <==> lang.IsArabic()
  {
    if lang == En then "en" else "ar"
  }

  /** The provider's render with the attribute `setLanguage` intends. */
  function Render(s: LanguageState): (r: LanguageState)
    ensures r.language == s.language
    ensures r.doc.lang in {"en", "ar"} && r.doc.dir in {"ltr", "rtl"}
  {
    s.(doc := Document(LangAttribute(s.language), Dir(s.language)))
  }

  /** With the intended render, what `setLanguage` writes survives the
      re-render, and a render changes nothing once the document is in step. */
  lemma RenderKeepsSetLanguage(s: LanguageState, lang: Language)
    ensures Render(SetLanguage(s, lang)) == SetLanguage(s, lang)
    ensures Render(Render(s)) == Render(s)
  {
  }

  /** The page as first shown: Arabic, right to left. */
  lemma InitialDocument(doc: Document)
    ensures Render(LanguageState(InitialLanguage, doc)).doc == Document("ar", "rtl")
    ensures RenderAsWritten(LanguageState(InitialLanguage, doc)).doc == Document("ar", "rtl")
  {
  }

  // ---------------------------------------------------------------------------
  // The tables
  // ---------------------------------------------------------------------------

  /** The translation keys, in four runs of twenty-five. */
  const Keys: seq<string> := KeysA + KeysB + KeysC + KeysD

  const KeysA: seq<string> := [
    "home", "productsNav", "cart", "checkout", "heroTitle", "heroSubtitle", "shopNow",
    "freeShipping", "freeShippingDesc", "customDesign", "customDesignDesc",
    "highQuality", "highQualityDesc", "securePayment", "securePaymentDesc",
    "featuredProducts", "viewAll", "ourProducts", "browseProducts", "searchProducts",
    "categories", "allProducts", "tshirts", "hoodies", "tankTops"]

  const KeysB: seq<string> := [
    "polos", "sweatshirts", "jackets", "showing", "products", "noProductsFound", "about",
    "contact", "gallery", "services", "aboutUs", "ourStory", "mission", "vision",
    "getInTouch", "sendMessage", "name", "message", "send", "viewGallery", "ourServices",
    "size", "color", "customText", "customTextPlaceholder"]

  const KeysC: seq<string> := [
    "customTextDesc", "quantity", "addToCart", "outOfStock", "productNotFound",
    "backToProducts", "pleaseSelectSize", "addedToCart", "shoppingCart", "clearCart",
    "yourCartIsEmpty", "emptyCartDesc", "browseProductsCart", "orderSummary", "subtotal",
    "shipping", "free", "total", "proceedToCheckout", "shippingInformation", "fullName",
    "email", "address", "city", "state"]

  const KeysD: seq<string> := [
    "zipCode", "country", "paymentInformation", "paymentNote", "processing",
    "paymentSuccessful", "paymentFailed", "footerDesc", "quickLinks", "customerService",
    "contactUs", "shippingInfo", "returns", "followUs", "allRightsReserved", "sizeLabel",
    "colorLabel", "customLabel", "qtyLabel", "discoverCollection", "shop",
    "searchPlaceholder", "filterByCategory", "resultsFound", "changeLanguage"]

  /** The Arabic texts, key by key. */
  const ArTexts: seq<string> := [
    "الرئيسية",
    "المنتجات",
    "السلة",
    "الدفع",
    "ملابس مطبوعة حسب الطلب",
    "صمم واطبع ذوقك الفريد على تيشيرتات وهوديز والمزيد بجودة عالية. عبر عن نفسك بتصاميمك الخاصة!",
    "تسوق الآن",
    "شحن مجاني",
    "للطلبات فوق 500 جنيه",
    "تصميم مخصص",
    "اطبع تصميمك الفريد",
    "جودة عالية",
    "خامات وطباعة ممتازة",
    "دفع آمن",
    "دفع آمن ومشفر",
    "منتجات مميزة",
    "عرض الكل",
    "منتجاتنا",
    "تصفح مجموعتنا من الملابس القابلة للتخصيص",
    "ابحث عن المنتجات...",
    "التصنيفات",
    "كل المنتجات",
    "تيشيرتات",
    "هوديز",
    "تانك توب",
    "بولو",
    "سويت شيرت",
    "جاكيتات",
    "عرض",
    "منتج",
    "لا توجد منتجات مطابقة. جرب تعديل البحث او الفلاتر.",
    "لماذا نحن",
    "تواصل معنا",
    "المعرض",
    "الخدمات",
    "من نحن",
    "قصتنا",
    "رسالتنا",
    "رؤيتنا",
    "تواصل معنا",
    "ارسل رسالة",
    "الاسم",
    "الرسالة",
    "ارسال",
    "عرض المعرض",
    "خدماتنا",
    "المقاس",
    "اللون",
    "نص مخصص (اختياري)",
    "اضف نصا للطباعة...",
    "اضف نصك ليتم طباعته على القطعة",
    "الكمية",
    "اضف للسلة",
    "هذا المنتج غير متوفر حاليا.",
    "المنتج غير موجود",
    "الرجوع للمنتجات",
    "يرجى اختيار المقاس واللون",
    "تمت الاضافة الى السلة!",
    "سلة التسوق",
    "تفريغ السلة",
    "سلتك فارغة",
    "ابدأ باضافة منتجات الى السلة لتظهر هنا.",
    "تصفح المنتجات",
    "ملخص الطلب",
    "الاجمالي الفرعي",
    "الشحن",
    "مجاني",
    "الاجمالي",
    "المتابعة للدفع",
    "معلومات الشحن",
    "الاسم الكامل",
    "البريد الالكتروني",
    "العنوان",
    "المدينة",
    "المحافظة",
    "الرمز البريدي",
    "الدولة",
    "معلومات الدفع",
    "هذه تجربة. استخدم رقم البطاقة 4242 4242 4242 4242 مع اي تاريخ صلاحية مستقبلي و CVC.",
    "جار المعالجة",
    "تم الدفع بنجاح! تم تنفيذ الطلب.",
    "فشل الدفع. حاول مرة اخرى.",
    "نمورا تقدم طباعة وتطريزا ممتازين لقطع مميزة.",
    "روابط سريعة",
    "خدمة العملاء",
    "تواصل معنا",
    "معلومات الشحن",
    "الارجاع",
    "تابعنا",
    "جميع الحقوق محفوظة",
    "المقاس",
    "اللون",
    "تخصيص",
    "الكمية",
    "اكتشف المجموعة",
    "تسوق",
    "ابحث عن المنتجات...",
    "تصفية حسب التصنيف",
    "نتيجة",
    "تغيير اللغة"
  ]

  /** The English texts, key by key. */
  const EnTexts: seq<string> := [
    "Home",
    "Products",
    "Cart",
    "Checkout",
    "Custom Printed Apparel",
    "Design and print your unique style on high-quality t-shirts, hoodies, and more. Express yourself with custom designs!",
    "Shop Now",
    "Free Shipping",
    "On orders over 500 EGP",
    "Custom Design",
    "Print your unique designs",
    "High Quality",
    "Premium materials & printing",
    "Secure Payment",
    "Safe & encrypted checkout",
    "Featured Products",
    "View All",
    "Our Products",
    "Browse our collection of customizable apparel",
    "Search products...",
    "Categories",
    "All Products",
    "T-Shirts",
    "Hoodies",
    "Tank Tops",
    "Polo Shirts",
    "Sweatshirts",
    "Jackets",
    "Showing",
    "product",
    "No products found. Try adjusting your search or filters.",
    "Why Us",
    "Contact",
    "Gallery",
    "Services",
    "Why Us",
    "Our Story",
    "Mission",
    "Vision",
    "Get In Touch",
    "Send Message",
    "Name",
    "Message",
    "Send",
    "View Gallery",
    "Our Services",
    "Size",
    "Color",
    "Custom Text (Optional)",
    "Add custom text to print...",
    "Add your own text to be printed on the item",
    "Quantity",
    "Add to Cart",
    "This product is currently out of stock.",
    "Product not found",
    "Back to Products",
    "Please select size and color",
    "Added to cart!",
    "Shopping Cart",
    "Clear Cart",
    "Your cart is empty",
    "Start adding items to your cart to see them here.",
    "Browse Products",
    "Order Summary",
    "Subtotal",
    "Shipping",
    "Free",
    "Total",
    "Proceed to Checkout",
    "Shipping Information",
    "Full Name",
    "Email",
    "Address",
    "City",
    "State",
    "ZIP Code",
    "Country",
    "Payment Information",
    "This is a demo. Use card number 4242 4242 4242 4242 with any future expiry date and CVC.",
    "Processing",
    "Payment successful! Order placed.",
    "Payment failed. Please try again.",
    "Nemora delivers premium printing and embroidery for standout pieces.",
    "Quick Links",
    "Customer Service",
    "Contact Us",
    "Shipping Info",
    "Returns",
    "Follow Us",
    "All rights reserved",
    "Size",
    "Color",
    "Custom",
    "Qty",
    "Discover Collection",
    "Shop",
    "Search products...",
    "Filter by Category",
    "results",
    "Change Language"
  ]

  /** A table pairs each key with its text. */
  function Entries(texts: seq<string>): (r: seq<(string, string)>)
    requires |texts| == |Keys|
    ensures |r| == |Keys| && forall k :: 0 <= k < |r| ==> r[k] == (Keys[k], texts[k])
  {
    seq(|Keys|, k requires 0 <= k < |Keys| => (Keys[k], texts[k]))
  }

  const ArEntries: seq<(string, string)> := Entries(ArTexts)
  const EnEntries: seq<(string, string)> := Entries(EnTexts)

  /** The Egyptian table repeats the Arabic one entry for entry. */
  const EgEntries: seq<(string, string)> := ArEntries
}
