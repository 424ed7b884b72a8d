/** The data the program hands to and gets back from Weka, as values: an
    attribute list, a class index and labelled rows. Feature values are kept
    as the 64-bit pattern of the IEEE double they stand for, and are never
    interpreted; the pattern of 0.0 is 0. */
module WekaData {
  import opened JavaText

  type Byte = b: int | 0 <= b < 0x100

  type Bits64 = x: int | 0 <= x < 0x1_0000_0000_0000_0000

  /** The IEEE-754 double 0.0. */
  const Zero: Bits64 := 0

  /** `n` feature values, all 0.0. */
  function Zeros(n: nat): (z: seq<Bits64>)
    ensures |z| == n
  {
    seq(n, _ => Zero)
  }

  /** Weka's missing value, the double NaN (`Double.doubleToLongBits(Double.NaN)`). */
  const MissingValue: Bits64 := 0x7FF8_0000_0000_0000

  /** `n` missing values: what a fresh `DenseInstance(n)` holds. */
  function Missing(n: nat): (z: seq<Bits64>)
    ensures |z| == n
  {
    seq(n, _ => MissingValue)
  }

  /** `MessageType`: the two classes. */
  datatype Label = Ham | Spam

  /** `MessageType.name()`. */
  function LabelName(l: Label): string
  {
    match l
    case Ham => "HAM"
    case Spam => "SPAM"
  }

  datatype Attribute = Numeric(name: string) | Nominal(name: string, values: seq<string>)

  /** One row: its feature values and its class. */
  datatype Instance = Instance(values: seq<Bits64>, messageType: Label)

  /** `weka.core.Instances`: the attribute list, the class index and the rows.
      The relation name (a random UUID in the source) is not modelled. */
  datatype Instances = Instances(attributes: seq<Attribute>, classIndex: int, rows: seq<Instance>)

  /** A data set with a class attribute has at least one attribute; the
      collaborators of the experiment loops (loaders, filters) return these. */
  type ClassifiedInstances = d: Instances | |d.attributes| >= 1
    witness Instances([ClassAttribute], 0, [])

  /** The nominal class attribute every data set of the program ends with. */
  const ClassAttribute: Attribute := Nominal("class", [LabelName(Ham), LabelName(Spam)])

  function FeatureName(i: nat): string
  {
    "x" + NatToString(i)
  }

  /** The attribute list `createAttributes(n)` builds. */
  function Attributes(n: nat): (r: seq<Attribute>)
    ensures |r| == n + 1
  {
    seq(n, (i: nat) requires i < n => Numeric(FeatureName(i))) + [ClassAttribute]
  }

  predicate DistinctNames(attrs: seq<Attribute>)
  {
    forall i, j :: 0 <= i < j < |attrs| ==> attrs[i].name != attrs[j].name
  }

  /** The attribute names are pairwise distinct, as Weka demands of a data set:
      `x0 … x{n-1}` differ by their digits and none of them is `class`. */
  lemma AttributeNamesDistinct(n: nat)
    ensures DistinctNames(Attributes(n))
  {
    var attrs := Attributes(n);
    forall i, j | 0 <= i < j < |attrs| ensures attrs[i].name != attrs[j].name {
      if j < n {
        if FeatureName(i) == FeatureName(j) {
          assert FeatureName(i)[1..] == NatToString(i);
          assert FeatureName(j)[1..] == NatToString(j);
          NatToStringInjective(i, j);
        }
      } else {
        assert attrs[j].name == "class";
        assert attrs[i].name[0] == 'x';
      }
    }
  }
}
