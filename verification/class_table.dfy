/** The fixed table of Java classes the bridge caches. Each entry is the JNI
    name `FindClass` is asked for; the comment gives the C global variable
    that holds the entry's cached handle. */
module ClassTable {

  const Names: seq<string> := [
    "java/lang/Boolean",               // JBOOLEAN_OBJ_TYPE
    "java/lang/Number",                // JNUMBER_TYPE
    "java/lang/Byte",                  // JBYTE_OBJ_TYPE
    "java/lang/Short",                 // JSHORT_OBJ_TYPE
    "java/lang/Integer",               // JINT_OBJ_TYPE
    "java/lang/Long",                  // JLONG_OBJ_TYPE
    "java/lang/Float",                 // JFLOAT_OBJ_TYPE
    "java/lang/Double",                // JDOUBLE_OBJ_TYPE
    "java/lang/Character",             // JCHAR_OBJ_TYPE
    "java/lang/String",                // JSTRING_TYPE
    "java/math/BigDecimal",            // JBIGDECIMAL_TYPE
    "[Z",                              // JBOOLEAN_ARRAY_TYPE
    "[B",                              // JBYTE_ARRAY_TYPE
    "[C",                              // JCHAR_ARRAY_TYPE
    "[S",                              // JSHORT_ARRAY_TYPE
    "[I",                              // JINT_ARRAY_TYPE
    "[J",                              // JLONG_ARRAY_TYPE
    "[F",                              // JFLOAT_ARRAY_TYPE
    "[D",                              // JDOUBLE_ARRAY_TYPE
    "[Ljava/lang/String;",             // JSTRING_ARRAY_TYPE
    "[Ljava/lang/Object;",             // JOBJECT_ARRAY_TYPE
    "java/sql/Date",                   // JSQLDATE_TYPE
    "java/sql/Time",                   // JSQLTIME_TYPE
    "java/sql/Timestamp",              // JSQLTIMESTAMP_TYPE
    "java/time/LocalDate",             // JLOCALDATE_TYPE
    "java/time/LocalTime",             // JLOCALTIME_TYPE
    "java/time/LocalDateTime",         // JLOCALDATETIME_TYPE
    "java/lang/Iterable",              // JITERABLE_TYPE
    "java/util/Iterator",              // JITERATOR_TYPE
    "java/util/Collection",            // JCOLLECTION_TYPE
    "java/util/List",                  // JLIST_TYPE
    "java/util/Map",                   // JMAP_TYPE
    "java/util/HashMap",               // JHASHMAP_TYPE
    "java/util/Map$Entry",             // JMAP_ENTRY_TYPE
    "java/lang/IllegalStateException", // JILLEGAL_STATE_EXEC_TYPE
    "pemja/core/PythonException",      // JPYTHONEXCE_TYPE
    "java/lang/Throwable",             // JTHROWABLE_TYPE
    "java/lang/StackTraceElement",     // JSTACK_TRACE_ELEMENT_TYPE
    "java/lang/Object"                 // JOBJECT_TYPE
  ]

  /** Number of slots in the table. */
  const Size: nat := 39

  lemma NamesFillTable()
    ensures |Names| == Size
  {
  }
}
