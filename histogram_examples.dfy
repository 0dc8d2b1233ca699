/** Rows of a typical `jmap -histo` dump run through the scanner. */
module HistogramExamples {
  import opened Wrappers
  import opened Text
  import opened Histogram

  /** The header, a separator and the `Total` footer of a dump give no row. */
  lemma FramingExample()
    ensures RowOf("num   #instances    #bytes  class name") == None
    ensures RowOf("----------------------------------") == None
    ensures RowOf("Total         22676        1146872") == None
  {
    var header := "num   #instances    #bytes  class name";
    assert header[0] == 'n';
    NoRankNoRow(header);
    var rule := "----------------------------------";
    assert rule[0] == '-';
    NoRankNoRow(rule);
    NoRankNoRow("Total         22676        1146872");
  }

  /** The `com.example.Foo` row of a dump, whatever its padding and its module, gives
      its columns as written and its class without the module. */
  lemma RowExample(pad: string, moduleName: string)
    requires |pad| >= 1 && AllSpaces(pad) && ')' !in moduleName
    ensures RowOf(pad + "1" + ":" + pad + "1,234" + pad + "56,789" + pad + "com.example.Foo" + (" (" + moduleName + ")"))
      == Some(HistoRow("1,234", "56,789", "com.example.Foo"))
  {
    ModuleInParens(moduleName);
    ExampleClass();
    RowOfPlainLine(pad, "1", pad, "1,234", pad, "56,789", pad, "com.example.Foo", " (" + moduleName + ")");
  }

  /** A row with a module and no class gives the module as its class name. */
  lemma ModuleOnlyExample(pad: string)
    requires |pad| >= 1 && AllSpaces(pad)
    ensures RowOf(pad + "1" + ":" + pad + "10" + pad + "20" + pad + "(java.base)")
      == Some(HistoRow("10", "20", "(java.base)"))
  {
    var m := "java.base";
    forall i | 0 <= i < |m| ensures !IsSpace(m[i]) && m[i] != '(' && m[i] != ')' {
      assert m[i] in "javbse.";
    }
    assert "(" + m + ")" == "(java.base)";
    RowOfModuleOnlyLine(pad, "1", pad, "10", pad, "20", pad, m);
  }

  /** A carriage return inside the module's parentheses leaves the class name empty. */
  lemma BlankClassExample(pad: string)
    requires |pad| >= 1 && AllSpaces(pad)
    ensures RowOf(pad + "1" + ":" + pad + "10" + pad + "20" + pad + " " + "(a\rb)")
      == Some(HistoRow("10", "20", ""))
  {
    assert "(" + "a" + "\r" + "b" + ")" == "(a\rb)";
    RowOfBrokenModuleLine(pad, "1", pad, "10", pad, "20", pad, "a", "b");
  }

  /** A row that ends in its gap, with no class and no module, has an empty class name. */
  lemma TrailingGapExample(pad: string)
    requires |pad| >= 1 && AllSpaces(pad)
    ensures RowOf(pad + "1" + ":" + pad + "10" + pad + "20" + pad + " ") == Some(HistoRow("10", "20", ""))
  {
    RowOfTrailingGapLine(pad, "1", pad, "10", pad, "20", pad);
  }

  lemma ExampleClass()
    ensures PlainClass("com.example.Foo")
  {
    var cls := "com.example.Foo";
    assert cls[0] == 'c';
    forall i | 0 <= i < |cls| ensures !IsSpace(cls[i]) && cls[i] != '(' {
      assert cls[i] in "abcdeFlmopx.";
    }
  }
}
